// The discrepancy ledger: rows unique per transaction and class, and an
// append-only log of events. Events are kept in insertion order; `at` is
// their occurred_at, the start time of the writing transaction.
module Ledger {
  import opened Common
  import opened Sorting
  import opened Discrepancy

  datatype Status = Open | UnderReview | Escalated | Resolved | FalsePositive
  datatype Action = Raised | SeverityChanged | MarkedResolved | MarkedFalsePositive
  datatype Key = Key(tx: nat, class_: Class)
  datatype Row = Row(key: Key, severity: Severity, status: Status)
  datatype Event = Event(disc: nat, action: Action, from: Option<Status>, to: Status, at: int)

  // `unique` is the index behind the unique constraint.
  datatype Ledger = Ledger(rows: map<nat, Row>, unique: map<Key, nat>, events: seq<Event>)

  const EMPTY := Ledger(map[], map[], [])

  predicate Closed(s: Status) { s == Resolved || s == FalsePositive }

  // ---- raising ----------------------------------------------------------------

  // INSERT ... ON CONFLICT DO NOTHING, and the event of an inserted row. Ids
  // are generated fresh.
  function Raise(l: Ledger, id: nat, key: Key, severity: Severity, at: int): Ledger {
    if key in l.unique || id in l.rows then l
    else Ledger(l.rows[id := Row(key, severity, Open)], l.unique[key := id],
                l.events + [Event(id, Raised, None, Open, at)])
  }

  datatype TxType = Credit | Debit | OtherType

  // A Silver row as the missing-settlement statement sees it.
  datatype SilverTx = SilverTx(id: nat, type_: TxType, pending: bool, matched: bool, expected: Option<int>)

  predicate Overdue(t: SilverTx, now: int) {
    !t.type_.OtherType? && t.pending && t.expected.Some? && t.expected.value < now && !t.matched
  }

  // The CASE expression over the hours overdue.
  function SqlSeverity(expected: int, now: int): Severity {
    var hours := (now - expected) as real / HOUR as real;
    if hours > 48.0 then Critical else if hours > 24.0 then High else Medium
  }

  // The SQL mirrors the Python classifier on every row it selects.
  lemma SqlMirrorsPython(t: SilverTx, now: int)
    requires Overdue(t, now)
    ensures ClassifyMissing(t.expected, now) == Some(SqlSeverity(t.expected.value, now))
  {
    var late := now - t.expected.value;
    var hours := late as real / HOUR as real;
    assert hours * HOUR as real == late as real;
    assert (48 * HOUR) as real == 48.0 * HOUR as real && (24 * HOUR) as real == 24.0 * HOUR as real;
  }

  // INSERT ... ON CONFLICT DO UPDATE ... WHERE status = 'open' AND severity
  // differs, and the event of an inserted or updated row.
  function UpsertMissing(l: Ledger, id: nat, t: SilverTx, now: int): Ledger
    requires Overdue(t, now)
  {
    var (key, severity) := (Key(t.id, MissingSettlement), SqlSeverity(t.expected.value, now));
    if key !in l.unique then Raise(l, id, key, severity, now)
    else
      var d := l.unique[key];
      if d in l.rows && l.rows[d].status == Open && l.rows[d].severity != severity then
        Ledger(l.rows[d := l.rows[d].(severity := severity)], l.unique,
               l.events + [Event(d, SeverityChanged, Some(Open), Open, now)])
      else l
  }

  // The statement over the whole of Silver, in whatever order.
  function MissingRun(l: Ledger, silver: seq<SilverTx>, ids: seq<nat>, now: int): Ledger
    requires |silver| == |ids|
  {
    if silver == [] then l
    else
      var n := |silver| - 1;
      var m := MissingRun(l, silver[..n], ids[..n], now);
      if Overdue(silver[n], now) then UpsertMissing(m, ids[n], silver[n], now) else m
  }

  // ---- resolving ----------------------------------------------------------------

  datatype Outcome = AsResolved | AsFalsePositive
  datatype Response = Done | NotFound | AlreadyClosed

  function StatusOf(o: Outcome): Status { if o.AsResolved? then Resolved else FalsePositive }

  function ActionOf(o: Outcome): Action { if o.AsResolved? then MarkedResolved else MarkedFalsePositive }

  function ResponseTo(rows: map<nat, Row>, d: nat): Response {
    if d !in rows then NotFound else if Closed(rows[d].status) then AlreadyClosed else Done
  }

  function CloseEvent(rows: map<nat, Row>, d: nat, o: Outcome, at: int): Event
    requires d in rows
  {
    Event(d, ActionOf(o), Some(rows[d].status), StatusOf(o), at)
  }

  // `resolve_discrepancy`.
  function Resolve(l: Ledger, d: nat, o: Outcome, at: int): Ledger {
    if ResponseTo(l.rows, d) != Done then l
    else l.(rows := l.rows[d := l.rows[d].(status := StatusOf(o))],
            events := l.events + [CloseEvent(l.rows, d, o, at)])
  }

  function ResolveEach(l: Ledger, ds: seq<nat>, o: Outcome, at: int): Ledger {
    if ds == [] then l else Resolve(ResolveEach(l, ds[..|ds| - 1], o, at), ds[|ds| - 1], o, at)
  }

  // ---- resolving in bulk ----------------------------------------------------------

  function Dedup(s: seq<nat>): seq<nat> {
    if s == [] then [] else if s[0] in s[1..] then Dedup(s[1..]) else [s[0]] + Dedup(s[1..])
  }

  function Ascending(): (nat, nat) -> bool { (x: nat, y: nat) => x <= y }

  // sorted({...}): ids compare as numbers here, as UUID texts in the source.
  function Requested(ids: seq<nat>): seq<nat> { Sort(Dedup(ids), Ascending()) }

  function Closable(rows: map<nat, Row>): nat -> bool { (d: nat) => ResponseTo(rows, d) == Done }

  function CloseRows(rows: map<nat, Row>, ds: seq<nat>, o: Outcome): map<nat, Row> {
    map d | d in rows :: if d in ds then rows[d].(status := StatusOf(o)) else rows[d]
  }

  function CloseEvents(rows: map<nat, Row>, ds: seq<nat>, o: Outcome, at: int): seq<Event>
    requires forall d :: d in ds ==> d in rows
  {
    if ds == [] then []
    else CloseEvents(rows, ds[..|ds| - 1], o, at) + [CloseEvent(rows, ds[|ds| - 1], o, at)]
  }

  datatype Skip = Skip(id: nat, reason: Response)

  function Skips(rows: map<nat, Row>, ids: seq<nat>): seq<Skip> {
    if ids == [] then []
    else Skips(rows, ids[..|ids| - 1])
         + if Closable(rows)(ids[|ids| - 1]) then [] else [Skip(ids[|ids| - 1], ResponseTo(rows, ids[|ids| - 1]))]
  }

  predicate PlanOrder(l: Ledger, ids: seq<nat>, order: seq<nat>) {
    multiset(order) == multiset(Filter(Requested(ids), Closable(l.rows)))
  }

  lemma PlanIsClosable(l: Ledger, ids: seq<nat>, order: seq<nat>)
    requires PlanOrder(l, ids, order)
    ensures forall d :: d in order ==> ResponseTo(l.rows, d) == Done
  {
    forall d | d in order ensures ResponseTo(l.rows, d) == Done {
      SameElements(order, Filter(Requested(ids), Closable(l.rows)), d);
    }
  }

  // The ledger after `bulk_resolve_discrepancies`. The INSERT ... SELECT has
  // no ORDER BY, so its events come in the order of the query plan.
  function Bulk(l: Ledger, ids: seq<nat>, o: Outcome, at: int, order: seq<nat>): Ledger
    requires PlanOrder(l, ids, order)
  {
    PlanIsClosable(l, ids, order);
    l.(rows := CloseRows(l.rows, order, o), events := l.events + CloseEvents(l.rows, order, o, at))
  }

  // ---- the ledger as the code keeps it -----------------------------------------------

  class DiscrepancyTables {
    var rows: map<nat, Row>
    var unique: map<Key, nat>
    var events: seq<Event>

    function View(): Ledger
      reads this
    {
      Ledger(rows, unique, events)
    }

    constructor ()
      ensures View() == EMPTY
    {
      rows, unique, events := map[], map[], [];
    }

    // The insert of `_raise_amount_discrepancy`; true when a row was raised.
    method RaiseFromPair(id: nat, key: Key, severity: Severity, at: int) returns (raised: bool)
      requires id !in rows
      modifies this
      ensures View() == Raise(old(View()), id, key, severity, at)
      ensures raised <==> key !in old(unique)
      ensures raised ==> rows == old(rows)[id := Row(key, severity, Open)]
      ensures raised ==> events == old(events) + [Event(id, Raised, None, Open, at)]
      ensures !raised ==> View() == old(View())
    {
      raised := key !in unique;
      if raised {
        rows, unique := rows[id := Row(key, severity, Open)], unique[key := id];
        events := events + [Event(id, Raised, None, Open, at)];
      }
    }

    // One row of the missing-settlement statement.
    method UpsertRow(id: nat, t: SilverTx, now: int) returns (raised: bool)
      requires id !in rows && Overdue(t, now)
      modifies this
      ensures View() == UpsertMissing(old(View()), id, t, now)
      ensures raised <==> Key(t.id, MissingSettlement) !in old(unique)
      ensures rows.Keys <= old(rows.Keys) + {id}
    {
      hide SqlSeverity;
      var key := Key(t.id, MissingSettlement);
      var severity := SqlSeverity(t.expected.value, now);
      raised := RaiseFromPair(id, key, severity, now);
      if !raised && unique[key] in rows {
        var d := unique[key];
        if rows[d].status == Open && rows[d].severity != severity {
          rows := rows[d := rows[d].(severity := severity)];
          events := events + [Event(d, SeverityChanged, Some(Open), Open, now)];
        }
      }
    }

    // `raise_missing_settlements`: how many rows are new.
    method RaiseMissingSettlements(silver: seq<SilverTx>, ids: seq<nat>, now: int) returns (raised: nat)
      requires |silver| == |ids| && Distinct(ids) && forall i :: 0 <= i < |ids| ==> ids[i] !in rows
      modifies this
      ensures View() == MissingRun(old(View()), silver, ids, now)
      ensures |unique| == |old(unique)| + raised
    {
      hide UpsertMissing;
      raised := 0;
      var i := 0;
      while i < |silver|
        invariant 0 <= i <= |silver|
        invariant View() == MissingRun(old(View()), silver[..i], ids[..i], now)
        invariant forall j :: i <= j < |ids| ==> ids[j] !in rows
        invariant |unique| == |old(unique)| + raised
      {
        assert silver[..i + 1][..i] == silver[..i] && ids[..i + 1][..i] == ids[..i];
        if Overdue(silver[i], now) {
          UniqueAfterUpsert(View(), ids[i], silver[i], now);
          var new_ := UpsertRow(ids[i], silver[i], now);
          raised := if new_ then raised + 1 else raised;
        }
        i := i + 1;
      }
      assert silver[..i] == silver && ids[..i] == ids;
    }

    // The resolve endpoint: lock, check, update, then the event.
    method ResolveDiscrepancy(d: nat, o: Outcome, at: int) returns (r: Response)
      modifies this
      ensures View() == Resolve(old(View()), d, o, at)
      ensures r == NotFound <==> d !in old(rows)
      ensures r == AlreadyClosed <==>
              d in old(rows) && (old(rows)[d].status == Resolved || old(rows)[d].status == FalsePositive)
      ensures r != Done ==> View() == old(View())
      ensures r == Done ==>
                var (row, status) := (old(rows)[d], if o.AsResolved? then Resolved else FalsePositive);
                && rows == old(rows)[d := Row(row.key, row.severity, status)]
                && events == old(events) + [Event(d, if o.AsResolved? then MarkedResolved else MarkedFalsePositive,
                                                  Some(row.status), status, at)]
    {
      if d !in rows {
        return NotFound;
      }
      var row := rows[d];
      if Closed(row.status) {
        return AlreadyClosed;
      }
      rows := rows[d := row.(status := StatusOf(o))];
      events := events + [Event(d, ActionOf(o), Some(row.status), StatusOf(o), at)];
      r := Done;
    }

    // The bulk endpoint, in one transaction: the events of all closable rows
    // first, in the plan's order, then their update.
    method BulkResolve(ids: seq<nat>, o: Outcome, at: int, plan: seq<nat>)
      returns (resolved: seq<nat>, skipped: seq<Skip>)
      requires PlanOrder(View(), ids, plan)
      modifies this
      ensures View() == Bulk(old(View()), ids, o, at, plan)
      ensures resolved == Filter(Requested(ids), Closable(old(rows)))
      ensures skipped == Skips(old(rows), Requested(ids))
    {
      hide Requested, Filter, Skips, Closable, CloseRows, CloseEvents;
      PlanIsClosable(View(), ids, plan);
      resolved := Filter(Requested(ids), Closable(rows));
      skipped := Skips(rows, Requested(ids));
      if resolved != [] {
        events := events + CloseEvents(rows, plan, o, at);
        rows := CloseRows(rows, plan, o);
      } else {
        assert |multiset(plan)| == 0;
        NothingToClose(rows, o, at);
        assert plan == [];
      }
    }
  }

  lemma NothingToClose(rows: map<nat, Row>, o: Outcome, at: int)
    ensures CloseRows(rows, [], o) == rows && CloseEvents(rows, [], o, at) == []
  {
  }

  lemma UniqueAfterUpsert(l: Ledger, id: nat, t: SilverTx, now: int)
    requires Overdue(t, now) && id !in l.rows
    ensures var (m, key) := (UpsertMissing(l, id, t, now), Key(t.id, MissingSettlement));
      |m.unique| == |l.unique| + if key in l.unique then 0 else 1
  {
    hide SqlSeverity;
  }

  // ---- any run ---------------------------------------------------------------------------

  // Each step is atomic for its rows: concurrent writers wait for row locks.
  datatype Step =
    | RaiseFromPair(id: nat, key: Key, severity: Severity, at: int)
    | UpsertRow(id: nat, t: SilverTx, now: int)
    | ResolveOne(d: nat, o: Outcome, at: int)
    | ResolveMany(ids: seq<nat>, o: Outcome, at: int, order: seq<nat>)

  function Next(l: Ledger, step: Step): Ledger {
    match step
    case RaiseFromPair(id, key, severity, at) => Raise(l, id, key, severity, at)
    case UpsertRow(id, t, now) => if Overdue(t, now) then UpsertMissing(l, id, t, now) else l
    case ResolveOne(d, o, at) => Resolve(l, d, o, at)
    case ResolveMany(ids, o, at, order) => if PlanOrder(l, ids, order) then Bulk(l, ids, o, at, order) else l
  }

  function RunFrom(l: Ledger, steps: seq<Step>): Ledger {
    if steps == [] then l else Next(RunFrom(l, steps[..|steps| - 1]), steps[|steps| - 1])
  }

  function Run(steps: seq<Step>): Ledger { RunFrom(EMPTY, steps) }

  // ---- audit replay ------------------------------------------------------------------------

  function About(d: nat): Event -> bool { (e: Event) => e.disc == d }

  function EventsOf(l: Ledger, d: nat): seq<Event> { Filter(l.events, About(d)) }

  predicate Closing(e: Event) { e.action == MarkedResolved || e.action == MarkedFalsePositive }

  predicate WellFormed(e: Event) {
    match e.action
    case Raised => e.from == None && e.to == Open
    case SeverityChanged => e.from == Some(Open) && e.to == Open
    case MarkedResolved => e.from == Some(Open) && e.to == Resolved
    case MarkedFalsePositive => e.from == Some(Open) && e.to == FalsePositive
  }

  // A complete history of a row in status `s`: it begins with raised (none to
  // open) and only then, each event starts where the previous one ended, the
  // last ends at `s`, and a closing event can only be the last.
  predicate History(es: seq<Event>, s: Status) {
    && es != [] && es[|es| - 1].to == s
    && (forall i :: 0 <= i < |es| ==> WellFormed(es[i]))
    && (forall i :: 0 <= i < |es| ==> (es[i].action == Raised <==> i == 0))
    && (forall i :: 0 < i < |es| ==> es[i].from == Some(es[i - 1].to))
    && (forall i :: 0 <= i < |es| && Closing(es[i]) ==> i == |es| - 1)
  }

  ghost predicate Audited(l: Ledger) {
    && (forall d :: d in l.rows ==> History(EventsOf(l, d), l.rows[d].status))
    && (forall d: nat :: d !in l.rows ==> EventsOf(l, d) == [])
    && (forall k :: k in l.unique ==> l.unique[k] in l.rows && l.rows[l.unique[k]].key == k)
    && (forall d :: d in l.rows ==> l.rows[d].key in l.unique && l.unique[l.rows[d].key] == d)
  }

  // What appending one event does to each history.
  lemma EventsAfter(l: Ledger, m: Ledger, e: Event, d: nat)
    requires m.events == l.events + [e]
    ensures EventsOf(m, d) == if e.disc == d then EventsOf(l, d) + [e] else EventsOf(l, d)
  {
    FilterAppend(l.events, [e], About(d));
    FilterOne(e, About(d));
  }

  // One row written together with its event, in a way that continues its
  // history, keeps the ledger audited.
  lemma WriteKeeps(l: Ledger, m: Ledger, id: nat, row: Row, e: Event)
    requires Audited(l) && e.disc == id
    requires m.rows == l.rows[id := row] && m.events == l.events + [e]
    requires id in l.rows ==> row.key == l.rows[id].key && m.unique == l.unique
    requires id !in l.rows ==> row.key !in l.unique && m.unique == l.unique[row.key := id]
    requires History(EventsOf(l, id) + [e], row.status)
    ensures Audited(m)
  {
    hide History, WellFormed, EventsOf;
    forall d: nat
      ensures EventsOf(m, d) == if e.disc == d then EventsOf(l, d) + [e] else EventsOf(l, d)
    {
      EventsAfter(l, m, e, d);
    }
  }

  lemma FirstEvent(e: Event)
    requires e.action == Raised && WellFormed(e)
    ensures History([] + [e], Open)
  {
  }

  // An open history goes on with a well-formed event that is not a raise.
  lemma Continues(es: seq<Event>, e: Event)
    requires History(es, Open) && WellFormed(e) && e.action != Raised
    ensures History(es + [e], e.to)
  {
    assert !Closing(es[|es| - 1]);
  }

  lemma OnlyOpenOrClosed(es: seq<Event>, s: Status)
    requires History(es, s)
    ensures s == Open || Closed(s)
    ensures Closed(s) <==> Closing(es[|es| - 1])
  {
  }

  lemma RaiseKeeps(l: Ledger, id: nat, key: Key, severity: Severity, at: int)
    requires Audited(l)
    ensures Audited(Raise(l, id, key, severity, at))
  {
    hide History, EventsOf;
    if key !in l.unique && id !in l.rows {
      var e := Event(id, Raised, None, Open, at);
      FirstEvent(e);
      WriteKeeps(l, Raise(l, id, key, severity, at), id, Row(key, severity, Open), e);
    }
  }

  lemma UpsertKeeps(l: Ledger, id: nat, t: SilverTx, now: int)
    requires Audited(l) && Overdue(t, now)
    ensures Audited(UpsertMissing(l, id, t, now))
  {
    hide History, EventsOf, SqlSeverity;
    var (key, severity) := (Key(t.id, MissingSettlement), SqlSeverity(t.expected.value, now));
    if key !in l.unique {
      RaiseKeeps(l, id, key, severity, now);
    } else {
      var d := l.unique[key];
      if l.rows[d].status == Open && l.rows[d].severity != severity {
        var e := Event(d, SeverityChanged, Some(Open), Open, now);
        Continues(EventsOf(l, d), e);
        WriteKeeps(l, UpsertMissing(l, id, t, now), d, l.rows[d].(severity := severity), e);
      }
    }
  }

  lemma ResolveKeeps(l: Ledger, d: nat, o: Outcome, at: int)
    requires Audited(l)
    ensures Audited(Resolve(l, d, o, at))
  {
    hide History, EventsOf;
    if ResponseTo(l.rows, d) == Done {
      OnlyOpenOrClosed(EventsOf(l, d), l.rows[d].status);
      var e := CloseEvent(l.rows, d, o, at);
      Continues(EventsOf(l, d), e);
      WriteKeeps(l, Resolve(l, d, o, at), d, l.rows[d].(status := StatusOf(o)), e);
    }
  }

  lemma {:induction false} ResolveEachKeeps(l: Ledger, ds: seq<nat>, o: Outcome, at: int)
    requires Audited(l)
    ensures Audited(ResolveEach(l, ds, o, at))
  {
    hide Audited, Resolve;
    if ds != [] {
      ResolveEachKeeps(l, ds[..|ds| - 1], o, at);
      ResolveKeeps(ResolveEach(l, ds[..|ds| - 1], o, at), ds[|ds| - 1], o, at);
    }
  }

  // ---- bulk refines a fold of single resolves -------------------------------------------------

  lemma {:induction false} DistinctCounts(s: seq<nat>)
    ensures Distinct(s) <==> forall x :: multiset(s)[x] <= 1
  {
    if s != [] {
      assert s == [s[0]] + s[1..];
      DistinctCounts(s[1..]);
      if Distinct(s) {
        assert s[0] !in s[1..];
      } else if s[0] in s[1..] {
        assert multiset(s)[s[0]] > 1;
      } else {
        assert !Distinct(s[1..]);
        var x :| multiset(s[1..])[x] > 1;
        assert multiset(s)[x] > 1;
      }
    }
  }

  lemma {:induction false} DedupFacts(s: seq<nat>)
    ensures Distinct(Dedup(s))
    ensures forall x :: x in Dedup(s) <==> x in s
  {
    if s != [] {
      DedupFacts(s[1..]);
      assert s == [s[0]] + s[1..];
    }
  }

  lemma AscendingOrders()
    ensures TotalPreorder(Ascending())
  {
  }

  // The requested ids, each once, in ascending order.
  lemma RequestedFacts(ids: seq<nat>)
    ensures Distinct(Requested(ids))
    ensures forall x :: x in Requested(ids) <==> x in ids
    ensures forall i, j :: 0 <= i < j < |Requested(ids)| ==> Requested(ids)[i] < Requested(ids)[j]
  {
    hide Dedup, TotalPreorder;
    var s := Requested(ids);
    DedupFacts(ids);
    DistinctCounts(Dedup(ids));
    DistinctCounts(s);
    AscendingOrders();
    SortSorted(Dedup(ids), Ascending());
    forall x ensures x in s <==> x in ids { SameElements(s, Dedup(ids), x); }
    forall i, j | 0 <= i < j < |s| ensures s[i] < s[j] {
      assert Ascending()(s[i], s[j]);
    }
  }

  lemma PlanDistinct(l: Ledger, ids: seq<nat>, order: seq<nat>)
    requires PlanOrder(l, ids, order)
    ensures Distinct(order)
    ensures forall d :: d in order <==> d in ids && ResponseTo(l.rows, d) == Done
  {
    hide Requested, Filter, ResponseTo;
    RequestedFacts(ids);
    var closable := Filter(Requested(ids), Closable(l.rows));
    FilterDistinct(Requested(ids), Closable(l.rows));
    DistinctCounts(closable);
    DistinctCounts(order);
    forall d ensures d in order <==> d in ids && ResponseTo(l.rows, d) == Done {
      SameElements(order, closable, d);
    }
  }

  // The one event a bulk call or a single call adds for `d`.
  function Extra(rows: map<nat, Row>, ds: seq<nat>, d: nat, o: Outcome, at: int): seq<Event> {
    if d in ds && ResponseTo(rows, d) == Done then [CloseEvent(rows, d, o, at)] else []
  }

  // `m` is `l` with every closable row of `ds` closed, and with one event more
  // for each.
  ghost predicate ClosedIn(l: Ledger, m: Ledger, ds: seq<nat>, o: Outcome, at: int) {
    && m.unique == l.unique && m.rows.Keys == l.rows.Keys
    && (forall d :: d in l.rows ==> m.rows[d] == AfterClosing(l.rows, ds, d, o))
    && (forall d: nat :: EventsOf(m, d) == EventsOf(l, d) + Extra(l.rows, ds, d, o, at))
  }

  function AfterClosing(rows: map<nat, Row>, ds: seq<nat>, d: nat, o: Outcome): Row
    requires d in rows
  {
    if d in ds && ResponseTo(rows, d) == Done then rows[d].(status := StatusOf(o)) else rows[d]
  }

  // What single resolves of distinct ids add up to.
  lemma {:induction false} EachAddsUp(l: Ledger, ds: seq<nat>, o: Outcome, at: int)
    requires Distinct(ds)
    ensures ClosedIn(l, ResolveEach(l, ds, o, at), ds, o, at)
  {
    if ds != [] {
      var (init, last) := (ds[..|ds| - 1], ds[|ds| - 1]);
      EachAddsUp(l, init, o, at);
      assert ds == init + [last] && last !in init;
      AddOne(l, ResolveEach(l, init, o, at), init, last, o, at);
    }
  }

  lemma AddOne(l: Ledger, m: Ledger, init: seq<nat>, last: nat, o: Outcome, at: int)
    requires last !in init && ClosedIn(l, m, init, o, at)
    ensures ClosedIn(l, Resolve(m, last, o, at), init + [last], o, at)
  {
    hide EventsOf;
    var n := Resolve(m, last, o, at);
    assert last in m.rows <==> last in l.rows by { assert last in m.rows.Keys <==> last in l.rows.Keys; }
    assert ResponseTo(m.rows, last) == ResponseTo(l.rows, last);
    assert n.rows.Keys == l.rows.Keys;
    forall d: nat ensures EventsOf(n, d) == EventsOf(l, d) + Extra(l.rows, init + [last], d, o, at) {
      if ResponseTo(m.rows, last) == Done {
        EventsAfter(m, n, CloseEvent(m.rows, last, o, at), d);
      }
    }
  }

  lemma {:induction false} CloseEventsOf(rows: map<nat, Row>, ds: seq<nat>, d: nat, o: Outcome, at: int)
    requires Distinct(ds) && forall x :: x in ds ==> x in rows
    ensures Filter(CloseEvents(rows, ds, o, at), About(d)) == if d in ds then [CloseEvent(rows, d, o, at)] else []
  {
    if ds != [] {
      var (init, last) := (ds[..|ds| - 1], ds[|ds| - 1]);
      assert ds == init + [last] && last !in init;
      CloseEventsOf(rows, init, d, o, at);
      var e := CloseEvent(rows, last, o, at);
      FilterAppend(CloseEvents(rows, init, o, at), [e], About(d));
      FilterOne(e, About(d));
    }
  }

  // Bulk resolve, whatever the plan's order, leaves the rows and every
  // discrepancy's history exactly as resolving the sorted distinct ids one by
  // one does.
  lemma BulkRefinesEach(l: Ledger, ids: seq<nat>, o: Outcome, at: int, order: seq<nat>)
    requires PlanOrder(l, ids, order)
    ensures var (bulk, each) := (Bulk(l, ids, o, at, order), ResolveEach(l, Requested(ids), o, at));
      && bulk.rows == each.rows && bulk.unique == each.unique
      && forall d: nat :: EventsOf(bulk, d) == EventsOf(each, d)
  {
    hide Requested, ResolveEach, PlanOrder;
    RequestedFacts(ids);
    PlanDistinct(l, ids, order);
    EachAddsUp(l, Requested(ids), o, at);
    var (bulk, each) := (Bulk(l, ids, o, at, order), ResolveEach(l, Requested(ids), o, at));
    assert bulk.rows.Keys == l.rows.Keys;
    forall d: nat ensures EventsOf(bulk, d) == EventsOf(each, d) {
      CloseEventsOf(l.rows, order, d, o, at);
      FilterAppend(l.events, CloseEvents(l.rows, order, o, at), About(d));
    }
  }

  // The skipped ids, with what a single call would have answered.
  lemma {:induction false} SkipsAre(rows: map<nat, Row>, ids: seq<nat>)
    ensures forall k :: k in Skips(rows, ids) <==> k.id in ids && k.reason == ResponseTo(rows, k.id) != Done
    ensures |Skips(rows, ids)| + |Filter(ids, Closable(rows))| == |ids|
  {
    if ids != [] {
      var (init, last) := (ids[..|ids| - 1], ids[|ids| - 1]);
      SkipsAre(rows, init);
      assert ids == init + [last];
      FilterAppend(init, [last], Closable(rows));
      FilterOne(last, Closable(rows));
    }
  }

  predicate IsClosed(row: Row) { row.status == Resolved || row.status == FalsePositive }

  function ClosedAs(row: Row, o: Outcome): Row {
    if IsClosed(row) then row else Row(row.key, row.severity, if o.AsResolved? then Resolved else FalsePositive)
  }

  // What a bulk resolve does to the rows: every resolved one is closed with
  // the outcome asked for, and keeps its key and severity; the others stay.
  lemma BulkCloses(l: Ledger, ids: seq<nat>, o: Outcome, at: int, order: seq<nat>)
    requires PlanOrder(l, ids, order)
    ensures var m := Bulk(l, ids, o, at, order);
      && m.rows.Keys == l.rows.Keys
      && forall d :: d in l.rows ==> m.rows[d] == if d in ids then ClosedAs(l.rows[d], o) else l.rows[d]
  {
    hide Requested, PlanOrder;
    PlanDistinct(l, ids, order);
  }

  // What bulk resolve reports: every requested id once, as resolved when a
  // single call would have closed it, as skipped with that call's refusal
  // otherwise.
  lemma BulkReport(rows: map<nat, Row>, ids: seq<nat>)
    ensures var s := Requested(ids);
      var (resolved, skipped) := (Filter(s, Closable(rows)), Skips(rows, s));
      && Distinct(resolved) && |resolved| + |skipped| == |s|
      && (forall d :: d in resolved <==> d in ids && d in rows && !IsClosed(rows[d]))
      && (forall k :: k in skipped <==>
            k.id in ids && if k.id in rows then IsClosed(rows[k.id]) && k.reason == AlreadyClosed
                           else k.reason == NotFound)
  {
    hide Requested;
    RequestedFacts(ids);
    FilterDistinct(Requested(ids), Closable(rows));
    SkipsAre(rows, Requested(ids));
  }

  lemma BulkKeeps(l: Ledger, ids: seq<nat>, o: Outcome, at: int, order: seq<nat>)
    requires Audited(l) && PlanOrder(l, ids, order)
    ensures Audited(Bulk(l, ids, o, at, order))
  {
    hide History, EventsOf, ResolveEach, Bulk, Requested, PlanOrder;
    BulkRefinesEach(l, ids, o, at, order);
    ResolveEachKeeps(l, Requested(ids), o, at);
  }

  lemma NextKeeps(l: Ledger, step: Step)
    requires Audited(l)
    ensures Audited(Next(l, step))
  {
    hide Audited, Raise, UpsertMissing, Resolve, Bulk, PlanOrder;
    match step {
      case RaiseFromPair(id, key, severity, at) => RaiseKeeps(l, id, key, severity, at);
      case UpsertRow(id, t, now) => if Overdue(t, now) { UpsertKeeps(l, id, t, now); }
      case ResolveOne(d, o, at) => ResolveKeeps(l, d, o, at);
      case ResolveMany(ids, o, at, order) =>
        if PlanOrder(l, ids, order) { BulkKeeps(l, ids, o, at, order); }
    }
  }

  // In every reachable state, replaying a discrepancy's events in insertion
  // order tells its whole story, and a transaction has at most one row per
  // class.
  lemma {:induction false} AuditReplay(steps: seq<Step>)
    ensures Audited(Run(steps))
    ensures var rows := Run(steps).rows;
      forall d, d2 :: d in rows && d2 in rows && rows[d].key == rows[d2].key ==> d == d2
  {
    hide History, EventsOf, Next;
    if steps != [] {
      AuditReplay(steps[..|steps| - 1]);
      NextKeeps(Run(steps[..|steps| - 1]), steps[|steps| - 1]);
    } else {
      NoEvents();
    }
  }

  lemma NoEvents()
    ensures forall d: nat :: EventsOf(EMPTY, d) == []
  {
  }

  // ---- closed means closed -----------------------------------------------------------------------

  ghost predicate Frozen(l: Ledger, m: Ledger, d: nat)
    requires d in l.rows
  {
    d in m.rows && m.rows[d] == l.rows[d] && EventsOf(m, d) == EventsOf(l, d)
  }

  lemma NextFreezes(l: Ledger, step: Step, d: nat)
    requires Audited(l) && d in l.rows && Closed(l.rows[d].status)
    ensures Frozen(l, Next(l, step), d)
  {
    hide History, EventsOf, Audited, SqlSeverity;
    var m := Next(l, step);
    match step {
      case RaiseFromPair(id, key, severity, at) =>
        if m != l { EventsAfter(l, m, Event(id, Raised, None, Open, at), d); }
      case UpsertRow(id, t, now) =>
        if m != l { EventsAfter(l, m, m.events[|l.events|], d); }
      case ResolveOne(d2, o, at) =>
        if m != l { EventsAfter(l, m, CloseEvent(l.rows, d2, o, at), d); }
      case ResolveMany(ids, o, at, order) =>
        if PlanOrder(l, ids, order) { BulkFreezes(l, ids, o, at, order, d); }
    }
  }

  lemma BulkFreezes(l: Ledger, ids: seq<nat>, o: Outcome, at: int, order: seq<nat>, d: nat)
    requires PlanOrder(l, ids, order) && d in l.rows && Closed(l.rows[d].status)
    ensures Frozen(l, Bulk(l, ids, o, at, order), d)
  {
    hide Requested, PlanOrder;
    PlanDistinct(l, ids, order);
    CloseEventsOf(l.rows, order, d, o, at);
    FilterAppend(l.events, CloseEvents(l.rows, order, o, at), About(d));
  }

  // Once a discrepancy is closed, no later run, resolve or bulk resolve
  // changes its row or adds to its history, and no other row is ever raised
  // for its transaction and class.
  lemma {:induction false} ClosedForever(before: seq<Step>, after: seq<Step>, d: nat)
    requires d in Run(before).rows && Closed(Run(before).rows[d].status)
    ensures Frozen(Run(before), Run(before + after), d)
    ensures forall d2 :: d2 in Run(before + after).rows && d2 != d ==>
              Run(before + after).rows[d2].key != Run(before).rows[d].key
  {
    hide Next, EventsOf, History;
    if after == [] {
      assert before + after == before;
    } else {
      var init := after[..|after| - 1];
      ClosedForever(before, init, d);
      assert (before + after)[..|before + after| - 1] == before + init;
      AuditReplay(before + init);
      NextFreezes(Run(before + init), after[|after| - 1], d);
    }
    AuditReplay(before + after);
  }

  // ---- missing settlements -------------------------------------------------------------------------

  ghost predicate Covered(l: Ledger, t: SilverTx, now: int) {
    var key := Key(t.id, MissingSettlement);
    && key in l.unique && l.unique[key] in l.rows && l.rows[l.unique[key]].key == key
    && (l.rows[l.unique[key]].status == Open ==>
          ClassifyMissing(t.expected, now) == Some(l.rows[l.unique[key]].severity))
  }

  ghost predicate Indexed(l: Ledger) {
    forall k :: k in l.unique ==> l.unique[k] in l.rows && l.rows[l.unique[k]].key == k
  }

  lemma UpsertCovers(l: Ledger, id: nat, t: SilverTx, now: int)
    requires Indexed(l) && id !in l.rows && Overdue(t, now)
    ensures var m := UpsertMissing(l, id, t, now);
      && Indexed(m) && Covered(m, t, now) && m.rows.Keys <= l.rows.Keys + {id}
      && (forall u: SilverTx :: u.id != t.id && Covered(l, u, now) ==> Covered(m, u, now))
  {
    hide SqlSeverity, ClassifyMissing;
    SqlMirrorsPython(t, now);
  }

  // The statement selects exactly the credits and debits that are pending,
  // unmatched and past their due time.
  lemma OverdueIff(t: SilverTx, now: int)
    ensures Overdue(t, now) <==>
            && (t.type_ == Credit || t.type_ == Debit) && t.pending && !t.matched
            && t.expected.Some? && t.expected.value < now
  {
  }

  // An open missing-settlement row of one of the selected transactions.
  ghost predicate RaisedFor(row: Row, silver: seq<SilverTx>, now: int) {
    row.status == Open && exists t :: t in silver && Overdue(t, now) && row.key == Key(t.id, MissingSettlement)
  }

  lemma UpsertTouches(l: Ledger, id: nat, t: SilverTx, now: int)
    requires Indexed(l) && id !in l.rows && Overdue(t, now)
    ensures var m := UpsertMissing(l, id, t, now);
      && (forall d :: d in m.rows && d !in l.rows ==>
            m.rows[d].status == Open && m.rows[d].key == Key(t.id, MissingSettlement))
      && m.rows.Keys >= l.rows.Keys
      && (forall d :: d in l.rows && m.rows[d] != l.rows[d] ==>
            m.rows[d].status == Open && m.rows[d].key == Key(t.id, MissingSettlement))
  {
    hide SqlSeverity;
  }

  // After a run, every overdue, pending, unmatched credit or debit has its
  // row, and where that row is open its severity is the Python classifier's;
  // no other row is raised or changed.
  lemma {:induction false} MissingRunCovers(l: Ledger, silver: seq<SilverTx>, ids: seq<nat>, now: int)
    requires Indexed(l) && |silver| == |ids| && Distinct(ids) && forall i :: 0 <= i < |ids| ==> ids[i] !in l.rows
    requires forall i, j :: 0 <= i < j < |silver| ==> silver[i].id != silver[j].id
    ensures var m := MissingRun(l, silver, ids, now);
      && Indexed(m)
      && (forall d :: d in m.rows && d !in l.rows ==> d in ids)
      && (forall t :: t in silver && Overdue(t, now) ==> Covered(m, t, now))
      && (forall d :: d in m.rows && d !in l.rows ==> RaisedFor(m.rows[d], silver, now))
      && (forall d :: d in l.rows ==> d in m.rows && (m.rows[d] == l.rows[d] || RaisedFor(m.rows[d], silver, now)))
  {
    hide Covered, UpsertMissing, Overdue, Indexed;
    if silver != [] {
      var n := |silver| - 1;
      var (init, last) := (silver[..n], silver[n]);
      MissingRunCovers(l, init, ids[..n], now);
      var m := MissingRun(l, init, ids[..n], now);
      assert ids[n] !in ids[..n];
      assert forall t :: t in init ==> t.id != last.id;
      assert silver == init + [last];
      if Overdue(last, now) {
        UpsertCovers(m, ids[n], last, now);
        UpsertTouches(m, ids[n], last, now);
        assert last in silver;
      }
    }
  }

  // Such a run is a run of the row-by-row steps above.
  function UpsertSteps(silver: seq<SilverTx>, ids: seq<nat>, now: int): (r: seq<Step>)
    requires |silver| == |ids|
    ensures |r| == |silver|
  {
    if silver == [] then []
    else UpsertSteps(silver[..|silver| - 1], ids[..|silver| - 1], now)
         + [UpsertRow(ids[|silver| - 1], silver[|silver| - 1], now)]
  }

  lemma {:induction false} MissingRunIsARun(l: Ledger, silver: seq<SilverTx>, ids: seq<nat>, now: int)
    requires |silver| == |ids|
    ensures MissingRun(l, silver, ids, now) == RunFrom(l, UpsertSteps(silver, ids, now))
  {
    hide UpsertMissing;
    if silver != [] {
      var n := |silver| - 1;
      MissingRunIsARun(l, silver[..n], ids[..n], now);
      var steps := UpsertSteps(silver, ids, now);
      assert steps[..n] == UpsertSteps(silver[..n], ids[..n], now);
    }
  }

  // The latest time a missing-settlement statement ran at.
  function Clock(steps: seq<Step>): Option<int> {
    if steps == [] then None
    else if steps[|steps| - 1].UpsertRow? then Some(steps[|steps| - 1].now)
    else Clock(steps[..|steps| - 1])
  }

  // Runs at nondecreasing times, over transactions whose due times are
  // `due`; pairs only raise the amount classes.
  ghost predicate Orderly(steps: seq<Step>, due: nat -> Option<int>) {
    steps == [] ||
    var (init, last) := (steps[..|steps| - 1], steps[|steps| - 1]);
    && Orderly(init, due)
    && (last.RaiseFromPair? ==> last.key.class_ != MissingSettlement)
    && (last.UpsertRow? ==> last.t.expected == due(last.t.id)
                            && (Clock(init).Some? ==> Clock(init).value <= last.now))
  }

  predicate AtMost(s: Severity, expected: Option<int>, clock: Option<int>) {
    clock.Some? && ClassifyMissing(expected, clock.value).Some?
    && Rank(s) <= Rank(ClassifyMissing(expected, clock.value).value)
  }

  ghost predicate SeverityInv(l: Ledger, due: nat -> Option<int>, clock: Option<int>) {
    forall d :: d in l.rows && l.rows[d].key.class_ == MissingSettlement ==>
      AtMost(l.rows[d].severity, due(l.rows[d].key.tx), clock)
  }

  ghost predicate Rises(l: Ledger, m: Ledger) {
    forall d :: d in l.rows ==>
      d in m.rows && m.rows[d].key == l.rows[d].key && Rank(l.rows[d].severity) <= Rank(m.rows[d].severity)
  }

  lemma LaterIsWorse(expected: Option<int>, t0: int, t1: int)
    requires t0 <= t1 && ClassifyMissing(expected, t0).Some?
    ensures ClassifyMissing(expected, t1).Some?
    ensures Rank(ClassifyMissing(expected, t0).value) <= Rank(ClassifyMissing(expected, t1).value)
  {
  }

  lemma UpsertRises(l: Ledger, id: nat, t: SilverTx, now: int, due: nat -> Option<int>, clock: Option<int>)
    requires Indexed(l) && SeverityInv(l, due, clock) && Overdue(t, now) && t.expected == due(t.id)
    requires clock.Some? ==> clock.value <= now
    ensures var m := UpsertMissing(l, id, t, now);
      SeverityInv(m, due, Some(now)) && Rises(l, m)
  {
    hide SqlSeverity, ClassifyMissing;
    SqlMirrorsPython(t, now);
    ClockAdvances(l, due, clock, now);
  }

  lemma ClockAdvances(l: Ledger, due: nat -> Option<int>, clock: Option<int>, now: int)
    requires SeverityInv(l, due, clock) && (clock.Some? ==> clock.value <= now)
    ensures SeverityInv(l, due, Some(now))
  {
    hide ClassifyMissing;
    forall d | d in l.rows && l.rows[d].key.class_ == MissingSettlement
      ensures AtMost(l.rows[d].severity, due(l.rows[d].key.tx), Some(now))
    {
      LaterIsWorse(due(l.rows[d].key.tx), clock.value, now);
    }
  }

  lemma NextRises(l: Ledger, step: Step, due: nat -> Option<int>, clock: Option<int>)
    requires Audited(l) && SeverityInv(l, due, clock)
    requires step.RaiseFromPair? ==> step.key.class_ != MissingSettlement
    requires step.UpsertRow? ==> step.t.expected == due(step.t.id) && (clock.Some? ==> clock.value <= step.now)
    ensures SeverityInv(Next(l, step), due, if step.UpsertRow? then Some(step.now) else clock)
    ensures Rises(l, Next(l, step))
  {
    hide History, EventsOf, UpsertMissing, AtMost, PlanOrder;
    match step {
      case RaiseFromPair(id, key, severity, at) =>
      case UpsertRow(id, t, now) =>
        ClockAdvances(l, due, clock, now);
        if Overdue(t, now) { UpsertRises(l, id, t, now, due, clock); }
      case ResolveOne(d, o, at) =>
      case ResolveMany(ids, o, at, order) =>
    }
  }

  lemma NoRows(due: nat -> Option<int>)
    ensures SeverityInv(EMPTY, due, None)
  {
  }

  lemma {:induction false} OrderlyInv(steps: seq<Step>, due: nat -> Option<int>)
    requires Orderly(steps, due)
    ensures SeverityInv(Run(steps), due, Clock(steps))
  {
    hide Audited, SeverityInv, Next;
    if steps == [] {
      NoRows(due);
    } else {
      var init := steps[..|steps| - 1];
      OrderlyInv(init, due);
      AuditReplay(init);
      NextRises(Run(init), steps[|steps| - 1], due, Clock(init));
    }
  }

  // While the runs come at nondecreasing times, no row's severity ever falls.
  lemma {:induction false} SeverityNeverFalls(before: seq<Step>, after: seq<Step>, due: nat -> Option<int>)
    requires Orderly(before + after, due)
    ensures Rises(Run(before), Run(before + after))
  {
    hide Audited, SeverityInv, Next;
    if after == [] {
      assert before + after == before;
    } else {
      var init := after[..|after| - 1];
      assert (before + after)[..|before + after| - 1] == before + init;
      SeverityNeverFalls(before, init, due);
      OrderlyInv(before + init, due);
      AuditReplay(before + init);
      NextRises(Run(before + init), after[|after| - 1], due, Clock(before + init));
    }
  }

  // Run times can go backwards (they are transaction start times). Then the
  // severity of an open row, last classified at `first`, falls in a run at
  // `second` exactly when that is earlier and the classifier differs.
  lemma SeverityFallsIff(l: Ledger, t: SilverTx, first: int, second: int, id: nat)
    requires Indexed(l) && Overdue(t, first) && Overdue(t, second)
    requires var key := Key(t.id, MissingSettlement);
      && key in l.unique && l.rows[l.unique[key]].status == Open
      && ClassifyMissing(t.expected, first) == Some(l.rows[l.unique[key]].severity)
    ensures var (m, d) := (UpsertMissing(l, id, t, second), l.unique[Key(t.id, MissingSettlement)]);
      && m.rows.Keys == l.rows.Keys
      && (Rank(m.rows[d].severity) < Rank(l.rows[d].severity) <==>
            second < first && ClassifyMissing(t.expected, first) != ClassifyMissing(t.expected, second))
  {
    hide SqlSeverity;
    SqlMirrorsPython(t, second);
    if second < first {
      LaterIsWorse(t.expected, second, first);
    } else {
      LaterIsWorse(t.expected, first, second);
    }
  }

  lemma SeverityCanFall()
    ensures var t := SilverTx(7, Credit, true, false, Some(0));
      var l := UpsertMissing(EMPTY, 1, t, 50 * HOUR);
      l.rows[1].severity == Critical && UpsertMissing(l, 2, t, HOUR).rows[1].severity == Medium
  {
    hide SqlSeverity;
    var t := SilverTx(7, Credit, true, false, Some(0));
    SqlMirrorsPython(t, 50 * HOUR);
    SqlMirrorsPython(t, HOUR);
  }

  // ---- the audit trail as the API lists it ---------------------------------------------------------

  function ByTime(): (Event, Event) -> bool { (x: Event, y: Event) => x.at <= y.at }

  // ORDER BY occurred_at, id: ids are insertion order, so this is a stable
  // sort by time.
  function Listed(l: Ledger, d: nat): seq<Event> { Sort(EventsOf(l, d), ByTime()) }

  lemma ListedIffSorted(l: Ledger, d: nat)
    ensures Listed(l, d) == EventsOf(l, d) <==> SortedBy(EventsOf(l, d), ByTime())
  {
    hide EventsOf, Sort;
    assert TotalPreorder(ByTime());
    SortSorted(EventsOf(l, d), ByTime());
    if SortedBy(EventsOf(l, d), ByTime()) { SortedIsFixed(EventsOf(l, d), ByTime()); }
  }

  // The start time of a step's transaction.
  function StartOf(step: Step): int {
    match step
    case RaiseFromPair(_, _, _, at) => at
    case UpsertRow(_, _, now) => now
    case ResolveOne(_, _, at) => at
    case ResolveMany(_, _, at, _) => at
  }

  // Whether a step finds something to write about `d`: a new row under that
  // id, another severity for its open row, or an outcome for it while it is
  // not closed.
  predicate WritesTo(l: Ledger, step: Step, d: nat) {
    match step
    case RaiseFromPair(id, key, _, _) => id == d && key !in l.unique && id !in l.rows
    case UpsertRow(id, t, now) => Overdue(t, now) && UpsertWrites(l, id, t, now, d)
    case ResolveOne(d2, _, _) => d2 == d && ResponseTo(l.rows, d) == Done
    case ResolveMany(ids, _, _, order) => PlanOrder(l, ids, order) && d in ids && ResponseTo(l.rows, d) == Done
  }

  predicate UpsertWrites(l: Ledger, id: nat, t: SilverTx, now: int, d: nat)
    requires Overdue(t, now)
  {
    var key := Key(t.id, MissingSettlement);
    if key !in l.unique then id == d && id !in l.rows
    else
      && l.unique[key] == d && d in l.rows && l.rows[d].status == Open
      && l.rows[d].severity != SqlSeverity(t.expected.value, now)
  }

  // The start times of the steps that wrote to `d`, in the order in which
  // they wrote.
  function WriteTimes(steps: seq<Step>, d: nat): seq<int> {
    if steps == [] then []
    else
      var (init, last) := (steps[..|steps| - 1], steps[|steps| - 1]);
      WriteTimes(init, d) + if WritesTo(Run(init), last, d) then [StartOf(last)] else []
  }

  function Times(es: seq<Event>): (r: seq<int>)
    ensures |r| == |es| && forall i :: 0 <= i < |es| ==> r[i] == es[i].at
  {
    seq(|es|, i requires 0 <= i < |es| => es[i].at)
  }

  // A step adds one event about `d`, at its own time, exactly when it writes
  // to `d`.
  lemma StepAdds(l: Ledger, step: Step, d: nat)
    ensures var (old_, new_) := (EventsOf(l, d), EventsOf(Next(l, step), d));
      if WritesTo(l, step, d) then
        |new_| == |old_| + 1 && new_[..|old_|] == old_ && new_[|old_|].at == StartOf(step)
      else new_ == old_
  {
    hide EventsOf, SqlSeverity, PlanOrder;
    var m := Next(l, step);
    match step {
      case RaiseFromPair(id, key, severity, at) =>
        if m != l { EventsAfter(l, m, Event(id, Raised, None, Open, at), d); }
      case UpsertRow(id, t, now) =>
        if m != l { EventsAfter(l, m, m.events[|l.events|], d); }
      case ResolveOne(d2, o, at) =>
        if ResponseTo(l.rows, d2) == Done { EventsAfter(l, m, CloseEvent(l.rows, d2, o, at), d); }
      case ResolveMany(ids, o, at, order) =>
        if PlanOrder(l, ids, order) { BulkAdds(l, ids, o, at, order, d); }
    }
  }

  lemma BulkAdds(l: Ledger, ids: seq<nat>, o: Outcome, at: int, order: seq<nat>, d: nat)
    requires PlanOrder(l, ids, order)
    ensures EventsOf(Bulk(l, ids, o, at, order), d) == EventsOf(l, d) + Extra(l.rows, ids, d, o, at)
  {
    hide Requested, PlanOrder;
    PlanDistinct(l, ids, order);
    CloseEventsOf(l.rows, order, d, o, at);
    FilterAppend(l.events, CloseEvents(l.rows, order, o, at), About(d));
  }

  lemma {:induction false} TrailTimes(steps: seq<Step>, d: nat)
    ensures Times(EventsOf(Run(steps), d)) == WriteTimes(steps, d)
  {
    hide EventsOf, Next, WritesTo;
    if steps == [] {
      NoEvents();
    } else {
      var (init, last) := (steps[..|steps| - 1], steps[|steps| - 1]);
      TrailTimes(init, d);
      StepAdds(Run(init), last, d);
    }
  }

  predicate Nondecreasing(times: seq<int>) {
    forall i, j :: 0 <= i < j < |times| ==> times[i] <= times[j]
  }

  // The API lists a discrepancy's events in the order in which they were
  // written exactly when the transactions that wrote to it began in the order
  // in which they wrote.
  lemma ListedInOrderIff(steps: seq<Step>, d: nat)
    ensures Listed(Run(steps), d) == EventsOf(Run(steps), d) <==> Nondecreasing(WriteTimes(steps, d))
  {
    hide EventsOf, Run, Listed, WriteTimes;
    ListedIffSorted(Run(steps), d);
    TrailTimes(steps, d);
    var es := EventsOf(Run(steps), d);
    assert SortedBy(es, ByTime()) <==> Nondecreasing(Times(es)) by {
      if Nondecreasing(Times(es)) {
        forall i, j | 0 <= i < j < |es| ensures ByTime()(es[i], es[j]) { assert Times(es)[i] <= Times(es)[j]; }
      }
      if SortedBy(es, ByTime()) {
        forall i, j | 0 <= i < j < |es| ensures Times(es)[i] <= Times(es)[j] { assert ByTime()(es[i], es[j]); }
      }
    }
  }

  function StartTimes(steps: seq<Step>): (r: seq<int>)
    ensures |r| == |steps| && forall i :: 0 <= i < |steps| ==> r[i] == StartOf(steps[i])
  {
    seq(|steps|, i requires 0 <= i < |steps| => StartOf(steps[i]))
  }

  // So when all transactions take effect in the order in which they began,
  // every trail is listed as it was written.
  lemma SerialStartsListInOrder(steps: seq<Step>, d: nat)
    requires Nondecreasing(StartTimes(steps))
    ensures Listed(Run(steps), d) == EventsOf(Run(steps), d)
  {
    hide Listed, Run, EventsOf;
    ListedInOrderIff(steps, d);
    WritesAreSteps(steps, d);
  }

  lemma {:induction false} WritesAreSteps(steps: seq<Step>, d: nat)
    requires Nondecreasing(StartTimes(steps))
    ensures Nondecreasing(WriteTimes(steps, d))
    ensures forall x :: x in WriteTimes(steps, d) ==> steps != [] && x <= StartOf(steps[|steps| - 1])
  {
    hide WritesTo, Run;
    if steps != [] {
      var init := steps[..|steps| - 1];
      forall i, j | 0 <= i < j < |init| ensures StartTimes(init)[i] <= StartTimes(init)[j] {
        assert StartTimes(steps)[i] <= StartTimes(steps)[j];
      }
      WritesAreSteps(init, d);
      if init != [] { assert StartTimes(steps)[|init| - 1] <= StartTimes(steps)[|init|]; }
      AppendLater(WriteTimes(init, d), StartOf(steps[|init|]));
    }
  }

  lemma AppendLater(times: seq<int>, last: int)
    requires Nondecreasing(times) && forall x :: x in times ==> x <= last
    ensures Nondecreasing(times + [last])
  {
    forall i | 0 <= i < |times| ensures times[i] <= last { assert times[i] in times; }
  }

  // A trail out of order: an analyst's transaction begins, a matching run
  // that began later raises the severity, and then the analyst's takes
  // effect. The API shows the severity change after the resolution.
  lemma ResolvedBeforeItChanged(t: SilverTx)
    requires t == SilverTx(7, Credit, true, false, Some(0))
    ensures var l := Run([UpsertRow(1, t, HOUR), UpsertRow(2, t, 30 * HOUR), ResolveOne(1, AsResolved, 29 * HOUR)]);
      && EventsOf(l, 1) == [Event(1, Raised, None, Open, HOUR),
                            Event(1, SeverityChanged, Some(Open), Open, 30 * HOUR),
                            Event(1, MarkedResolved, Some(Open), Resolved, 29 * HOUR)]
      && Listed(l, 1) == [Event(1, Raised, None, Open, HOUR),
                          Event(1, MarkedResolved, Some(Open), Resolved, 29 * HOUR),
                          Event(1, SeverityChanged, Some(Open), Open, 30 * HOUR)]
  {
    var steps := [UpsertRow(1, t, HOUR), UpsertRow(2, t, 30 * HOUR), ResolveOne(1, AsResolved, 29 * HOUR)];
    var (a, b, c) := (Event(1, Raised, None, Open, HOUR), Event(1, SeverityChanged, Some(Open), Open, 30 * HOUR),
                      Event(1, MarkedResolved, Some(Open), Resolved, 29 * HOUR));
    ThreeSteps(steps);
    SqlMirrorsPython(t, HOUR);
    SqlMirrorsPython(t, 30 * HOUR);
    hide RunFrom, SqlSeverity, Sort, Filter;
    assert Run(steps).events == [a, b, c];
    AllAbout(a, b, c);
    SortThree(a, b, c);
  }

  lemma ThreeSteps(steps: seq<Step>)
    requires |steps| == 3
    ensures Run(steps) == Next(Next(Next(EMPTY, steps[0]), steps[1]), steps[2])
  {
    hide Next;
    var (one, two) := (steps[..1], steps[..2]);
    assert one[..|one| - 1] == [] && two[..|two| - 1] == one;
    assert RunFrom(EMPTY, one) == Next(EMPTY, one[|one| - 1]);
    assert RunFrom(EMPTY, two) == Next(RunFrom(EMPTY, one), two[|two| - 1]);
  }

  lemma AllAbout(a: Event, b: Event, c: Event)
    requires a.disc == b.disc == c.disc
    ensures Filter([a, b, c], About(a.disc)) == [a, b, c]
  {
    FilterAll([a, b, c], About(a.disc));
  }

  lemma SortThree(a: Event, b: Event, c: Event)
    requires a.at <= c.at < b.at
    ensures Sort([a, b, c], ByTime()) == [a, c, b]
  {
    assert [a, b, c][1..] == [b, c] && [b, c][1..] == [c] && [c][1..] == [];
    assert Sort([c], ByTime()) == [c];
    assert Insert(b, [c], ByTime()) == [c, b];
  }
}
