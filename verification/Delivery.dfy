// The whole delivery protocol as one transition system: any number of
// concurrent ingestion requests over one key registry, the broker's
// append-only logs, and the consumer worker with its crashes and restarts.
module Delivery {
  import opened Common
  import opened Keys
  import opened Lake
  import opened Worker
  import opened Ingestion

  // An ingestion request. From `Registered` on it holds an open transaction
  // with an uncommitted (hence locked) row of its key.
  datatype Phase = Waiting | Registered(isNew: bool) | BrokerAcked | Answered(isNew: bool) | Refused
  datatype Request = Request(arrival: Arrival, phase: Phase)

  // Where the worker is inside one iteration of its loop.
  datatype Pc = Idle | Fetched(pos: Pos) | Parking(pos: Pos) | Done(pos: Pos, handled: bool)

  // `commits` records every committed registry call, in commit order.
  datatype State = State(
    registry: map<string, nat>, requests: map<nat, Request>, commits: seq<(string, bool)>,
    logs: map<Part, seq<Entry>>, site: Site, pc: Pc)

  datatype Step =
    | Arrive(r: nat, arrival: Arrival)
    | Begin(r: nat)
    | Produce(r: nat, part: Part, publish: Publish)
    | CommitRegistration(r: nat, acknowledged: bool)
    | Abort(r: nat)
    | StrayAppend(part: Part, entry: Entry)   // a late delivery, or another producer
    | Poll(part: Part)
    | RunHandler(weather: Weather)
    | PublishDeadLetter(park: Park)
    | SettleOffset
    | CrashAndRestart

  function Log(s: State, part: Part): seq<Entry> {
    if part in s.logs then s.logs[part] else []
  }

  predicate InLog(s: State, pos: Pos) { pos.offset < |Log(s, pos.part)| }

  function EntryAt(s: State, pos: Pos): Entry
    requires InLog(s, pos)
  {
    Log(s, pos.part)[pos.offset]
  }

  function Append(s: State, part: Part, e: Entry): State {
    s.(logs := s.logs[part := Log(s, part) + [e]])
  }

  predicate Open(q: Request) { q.phase.Registered? || q.phase.BrokerAcked? }

  predicate HoldsKey(s: State, r: nat, key: string) {
    r in s.requests && Open(s.requests[r]) && KeyOf(s.requests[r].arrival) == Some(key)
  }

  // Another transaction holds the row lock of the key.
  predicate Locked(s: State, key: string) {
    exists r :: r in s.requests && HoldsKey(s, r, key)
  }

  function WithPhase(s: State, r: nat, p: Phase): State
    requires r in s.requests
  {
    s.(requests := s.requests[r := s.requests[r].(phase := p)])
  }

  // One step; a step that is not enabled (say, an INSERT blocked on another
  // transaction's lock) leaves the state alone.
  function Next(s: State, step: Step): State {
    match step
    case Arrive(r, a) =>
      if r in s.requests then s else s.(requests := s.requests[r := Request(a, Waiting)])
    case Begin(r) =>
      if r !in s.requests || !s.requests[r].phase.Waiting? then s else BeginRequest(s, r)
    case Produce(r, part, p) =>
      if r !in s.requests || s.requests[r].phase != Registered(true) || KeyOf(s.requests[r].arrival).None? then s
      else ProduceMessage(s, r, part, p)
    case CommitRegistration(r, acked) =>
      if r !in s.requests || KeyOf(s.requests[r].arrival).None? then s
      else if s.requests[r].phase.BrokerAcked? || s.requests[r].phase == Registered(false) then Commit(s, r, acked)
      else s
    case Abort(r) =>
      if r !in s.requests || s.requests[r].phase.Answered? then s else WithPhase(s, r, Refused)
    case StrayAppend(part, e) => Append(s, part, e)
    case Poll(part) => PollPartition(s, part)
    case RunHandler(w) => if s.pc.Fetched? && InLog(s, s.pc.pos) then HandleFetched(s, w) else s
    case PublishDeadLetter(park) => if s.pc.Parking? && InLog(s, s.pc.pos) then ParkCurrent(s, park) else s
    case SettleOffset =>
      if s.pc.Done? then s.(site := SettleAt(s.site, s.pc.pos, s.pc.handled), pc := Idle) else s
    case CrashAndRestart => s.(site := Restart(s.site), pc := Idle)
  }

  function PollPartition(s: State, part: Part): State {
    var pos := Pos(part, At(s.site.position, part));
    if s.pc.Idle? && InLog(s, pos) then s.(site := Fetch(s.site, part), pc := Fetched(pos)) else s
  }

  function HandleFetched(s: State, w: Weather): State
    requires s.pc.Fetched? && InLog(s, s.pc.pos)
  {
    var (site, next) := Handle(s.site, s.pc.pos, EntryAt(s, s.pc.pos), w);
    s.(site := site, pc := if next.ParkIt? then Parking(s.pc.pos) else Done(s.pc.pos, next.handled))
  }

  function ParkCurrent(s: State, park: Park): State
    requires s.pc.Parking? && InLog(s, s.pc.pos)
  {
    var (site, ok) := DeadLetterIt(s.site, s.pc.pos, EntryAt(s, s.pc.pos), park);
    s.(site := site, pc := Done(s.pc.pos, ok))
  }

  function BeginRequest(s: State, r: nat): State
    requires r in s.requests
  {
    match KeyOf(s.requests[r].arrival)
    case None => WithPhase(s, r, Refused)
    case Some(key) => if Locked(s, key) then s else WithPhase(s, r, Registered(key !in s.registry))
  }

  function ProduceMessage(s: State, r: nat, part: Part, p: Publish): State
    requires r in s.requests && KeyOf(s.requests[r].arrival).Some?
  {
    var a := s.requests[r].arrival;
    var s1 := if p.BrokerLost? then s else Append(s, part, Event(MessageOf(a, KeyOf(a).value)));
    WithPhase(s1, r, if p.BrokerAck? then BrokerAcked else Refused)
  }

  // A commit whose acknowledgement is lost takes effect all the same.
  function Commit(s: State, r: nat, acked: bool): State
    requires r in s.requests && KeyOf(s.requests[r].arrival).Some?
  {
    var (key, isNew) := (KeyOf(s.requests[r].arrival).value, s.requests[r].phase.BrokerAcked?);
    var s1 := s.(registry := Register(s.registry, key), commits := s.commits + [(key, isNew)]);
    WithPhase(s1, r, if acked then Answered(isNew) else Refused)
  }

  function Start(): State {
    State(map[], map[], [], map[],
          Restart(Site(map[], map[], 0, 0, 0, map[], Tables(map[], map[], []), [])), Idle)
  }

  // The state after a run, whatever its steps.
  function Run(steps: seq<Step>): State {
    if steps == [] then Start() else Next(Run(steps[..|steps| - 1]), steps[|steps| - 1])
  }

  // ---- what is safe to claim -----------------------------------------------

  ghost predicate Published(s: State, key: string) {
    exists pos :: InLog(s, pos) && EntryAt(s, pos).Event? && EntryAt(s, pos).m.key == key
  }

  // Where the log entry at `pos` ended up.
  ghost predicate Accounted(s: State, pos: Pos)
    requires InLog(s, pos)
  {
    var e := EntryAt(s, pos);
    || DeadLetter(pos, e) in s.site.deadLetters
    || (e.Event? && Skipped(e.m) && pos in s.site.tables.bronze)
    || (e.Event? && !Skipped(e.m) && RowOf(e.m).Row? && RowOf(e.m).key in s.site.tables.silver
        && pos in s.site.tables.bronze)
  }

  ghost predicate IngestInv(s: State) {
    && (forall k :: k in s.registry ==> s.registry[k] >= 1 && Published(s, k))
    && (forall r :: r in s.requests ==> RequestInv(s, s.requests[r]))
    && (forall q, r, k :: HoldsKey(s, q, k) && HoldsKey(s, r, k) ==> q == r)
  }

  ghost predicate RequestInv(s: State, q: Request) {
    && (Open(q) || q.phase.Answered? ==> KeyOf(q.arrival).Some?)
    && (q.phase == Registered(true) || q.phase.BrokerAcked? ==> KeyOf(q.arrival).value !in s.registry)
    && (q.phase == Registered(false) || q.phase.Answered? ==> KeyOf(q.arrival).value in s.registry)
    && (q.phase.BrokerAcked? ==> Published(s, KeyOf(q.arrival).value))
  }

  ghost predicate ConsumeInv(s: State) {
    && (forall part :: At(s.site.committed, part) <= |Log(s, part)|)
    && (forall pos: Pos :: pos.offset < At(s.site.committed, pos.part) && InLog(s, pos) ==> Accounted(s, pos))
    && (s.pc.Idle? ==> forall part :: At(s.site.position, part) == At(s.site.committed, part))
    && (!s.pc.Idle? ==> BusyInv(s, s.pc.pos))
    && (s.pc.Done? && s.pc.handled ==> Accounted(s, s.pc.pos))
  }

  // The message in hand is the one after the committed offset.
  ghost predicate BusyInv(s: State, pos: Pos) {
    && InLog(s, pos)
    && pos.offset == At(s.site.committed, pos.part)
    && (forall part :: At(s.site.position, part) ==
          At(s.site.committed, part) + if part == pos.part then 1 else 0)
  }

  // Bronze and Silver hold what the log says, and Silver is write-once.
  ghost predicate TableInv(s: State) {
    && WriteOnce(s.site.tables)
    && (forall p :: p in s.site.tables.bronze ==>
          InLog(s, p) && EntryAt(s, p).Event? && s.site.tables.bronze[p] == BronzeOf(EntryAt(s, p).m))
    && (forall o :: o in s.site.tables.offered ==> OfferInv(s, o))
    && (forall d :: d in s.site.deadLetters ==> InLog(s, d.pos) && EntryAt(s, d.pos) == d.entry)
  }

  ghost predicate OfferInv(s: State, o: SilverRow) {
    && o.bronze in s.site.tables.bronze
    && InLog(s, o.bronze) && EntryAt(s, o.bronze).Event?
    && o.row == RowOf(EntryAt(s, o.bronze).m) && o.row.Row? && !Skipped(EntryAt(s, o.bronze).m)
  }

  ghost predicate Inv(s: State) {
    IngestInv(s) && ConsumeInv(s) && TableInv(s)
  }

  // ---- the invariant holds in every reachable state --------------------------

  // Logs only grow, and so do the tables and the dead-letter topic.
  ghost predicate LogsExtend(s: State, s': State) {
    forall pos :: InLog(s, pos) ==> InLog(s', pos) && EntryAt(s', pos) == EntryAt(s, pos)
  }

  ghost predicate SiteExtends(t: Site, t': Site) {
    && (forall p :: p in t.tables.bronze ==> p in t'.tables.bronze && t'.tables.bronze[p] == t.tables.bronze[p])
    && (forall k :: k in t.tables.silver ==> k in t'.tables.silver && t'.tables.silver[k] == t.tables.silver[k])
    && (forall d :: d in t.deadLetters ==> d in t'.deadLetters)
  }

  lemma AppendExtends(s: State, part: Part, e: Entry)
    ensures LogsExtend(s, Append(s, part, e))
  {
  }

  predicate Ingesting(step: Step) {
    step.Arrive? || step.Begin? || step.Produce? || step.CommitRegistration? || step.Abort? || step.StrayAppend?
  }

  // Ingestion never touches the consumer, and only appends to the logs.
  lemma IngestingFrame(s: State, step: Step)
    requires Ingesting(step)
    ensures Next(s, step).site == s.site && Next(s, step).pc == s.pc
    ensures LogsExtend(s, Next(s, step))
  {
    hide KeyOf, Locked, Handle, Fetch, DeadLetterIt, SettleAt, Restart;
  }

  lemma HandleEffects(t: Site, pos: Pos, e: Entry, w: Weather)
    requires WriteOnce(t.tables)
    ensures var (t', next) := Handle(t, pos, e, w);
      && t'.committed == t.committed && t'.position == t.position && t'.deadLetters == t.deadLetters
      && WriteOnce(t'.tables)
      && (forall p :: p in t.tables.bronze ==> p in t'.tables.bronze && t'.tables.bronze[p] == t.tables.bronze[p])
      && (forall k :: k in t.tables.silver ==> k in t'.tables.silver && t'.tables.silver[k] == t.tables.silver[k])
      && (forall p :: p in t'.tables.bronze && p !in t.tables.bronze ==>
            p == pos && e.Event? && t'.tables.bronze[p] == BronzeOf(e.m))
      && (t'.tables.offered == t.tables.offered
          || (e.Event? && RowOf(e.m).Row? && pos in t'.tables.bronze && !Skipped(e.m)
              && t'.tables.offered == t.tables.offered + [SilverRow(pos, RowOf(e.m))]))
      && (next == Settle(true) ==>
            e.Event? && if Skipped(e.m) then pos in t'.tables.bronze
                        else RowOf(e.m).Row? && RowOf(e.m).key in t'.tables.silver && pos in t'.tables.bronze)
  {
    if !e.Garbage? {
      ProcessEffects(t.tables, pos, e, w);
    }
    hide Process, RowOf, Skipped, WriteOnce;
  }

  lemma StaysPublished(s: State, s': State, key: string)
    requires LogsExtend(s, s') && Published(s, key)
    ensures Published(s', key)
  {
    var pos :| InLog(s, pos) && EntryAt(s, pos).Event? && EntryAt(s, pos).m.key == key;
    assert InLog(s', pos) && EntryAt(s', pos) == EntryAt(s, pos);
  }

  lemma StaysAccounted(s: State, s': State, pos: Pos)
    requires LogsExtend(s, s') && SiteExtends(s.site, s'.site) && InLog(s, pos) && Accounted(s, pos)
    ensures InLog(s', pos) && Accounted(s', pos)
  {
    hide RowOf, Skipped;
  }

  lemma TablesKept(s: State, s': State)
    requires TableInv(s) && LogsExtend(s, s') && s'.site.tables == s.site.tables
    requires forall d :: d in s'.site.deadLetters ==>
               d in s.site.deadLetters || (InLog(s', d.pos) && EntryAt(s', d.pos) == d.entry)
    ensures TableInv(s')
  {
    hide WriteOnce, RowOf, Skipped;
  }

  lemma HandlerKeepsTables(s: State, w: Weather)
    requires TableInv(s) && s.pc.Fetched? && InLog(s, s.pc.pos)
    ensures TableInv(HandleFetched(s, w))
    ensures SiteExtends(s.site, HandleFetched(s, w).site)
  {
    hide Handle, WriteOnce, RowOf, Skipped, BronzeOf;
    HandleEffects(s.site, s.pc.pos, EntryAt(s, s.pc.pos), w);
    TableInvKept(s, HandleFetched(s, w), s.pc.pos);
  }

  lemma TableInvKept(s: State, s': State, pos: Pos)
    requires TableInv(s) && s'.logs == s.logs && InLog(s, pos) && s'.site.deadLetters == s.site.deadLetters
    requires WriteOnce(s'.site.tables) && SiteExtends(s.site, s'.site)
    requires forall p :: p in s'.site.tables.bronze && p !in s.site.tables.bronze ==>
               p == pos && EntryAt(s, pos).Event? && s'.site.tables.bronze[p] == BronzeOf(EntryAt(s, pos).m)
    requires forall o :: o in s'.site.tables.offered && o !in s.site.tables.offered ==>
               && EntryAt(s, pos).Event? && RowOf(EntryAt(s, pos).m).Row? && pos in s'.site.tables.bronze
               && !Skipped(EntryAt(s, pos).m) && o == SilverRow(pos, RowOf(EntryAt(s, pos).m))
    ensures TableInv(s')
  {
    hide WriteOnce, RowOf, Skipped, BronzeOf;
    forall o | o in s'.site.tables.offered
      ensures OfferInv(s', o)
    {
      if o in s.site.tables.offered {
        assert OfferInv(s, o);
      }
    }
  }

  lemma ConsumeInvKept(s: State, s': State)
    requires ConsumeInv(s) && LogsExtend(s, s') && s'.site == s.site && s'.pc == s.pc
    ensures ConsumeInv(s')
  {
    hide RowOf, Skipped;
    forall part ensures At(s'.site.committed, part) <= |Log(s', part)| {
      var n := At(s.site.committed, part);
      if n > 0 { assert InLog(s, Pos(part, n - 1)); }
    }
  }

  lemma HandlerKeepsConsume(s: State, w: Weather)
    requires TableInv(s) && ConsumeInv(s) && s.pc.Fetched? && InLog(s, s.pc.pos)
    ensures ConsumeInv(HandleFetched(s, w))
  {
    hide Handle, WriteOnce, RowOf, Skipped, BronzeOf, OfferInv, ConsumeInv, SiteExtends;
    HandlerKeepsTables(s, w);
    HandleEffects(s.site, s.pc.pos, EntryAt(s, s.pc.pos), w);
    ConsumeAfterHandler(s, HandleFetched(s, w));
  }

  lemma ConsumeAfterHandler(s: State, s': State)
    requires ConsumeInv(s) && s.pc.Fetched? && InLog(s, s.pc.pos) && s'.logs == s.logs
    requires s'.pc == Parking(s.pc.pos) || s'.pc == Done(s.pc.pos, false) || s'.pc == Done(s.pc.pos, true)
    requires s'.site.committed == s.site.committed && s'.site.position == s.site.position
    requires SiteExtends(s.site, s'.site)
    requires InLog(s', s.pc.pos) && (s'.pc.Done? && s'.pc.handled ==> Accounted(s', s.pc.pos))
    ensures ConsumeInv(s')
  {
    hide RowOf, Skipped;
    forall pos: Pos | pos.offset < At(s'.site.committed, pos.part) && InLog(s', pos)
      ensures Accounted(s', pos)
    {
      StaysAccounted(s, s', pos);
    }
  }

  lemma ParkKeepsConsume(s: State, park: Park)
    requires ConsumeInv(s) && s.pc.Parking? && InLog(s, s.pc.pos)
    ensures ConsumeInv(ParkCurrent(s, park))
    ensures SiteExtends(s.site, ParkCurrent(s, park).site)
  {
    hide RowOf, Skipped;
    var s' := ParkCurrent(s, park);
    forall pos: Pos | pos.offset < At(s'.site.committed, pos.part) && InLog(s', pos)
      ensures Accounted(s', pos)
    {
      StaysAccounted(s, s', pos);
    }
  }

  lemma SettleKeepsConsume(s: State)
    requires ConsumeInv(s) && s.pc.Done?
    ensures ConsumeInv(s.(site := SettleAt(s.site, s.pc.pos, s.pc.handled), pc := Idle))
  {
    hide RowOf, Skipped;
    var s' := s.(site := SettleAt(s.site, s.pc.pos, s.pc.handled), pc := Idle);
    assert BusyInv(s, s.pc.pos);
    forall pos: Pos | pos.offset < At(s'.site.committed, pos.part) && InLog(s', pos)
      ensures Accounted(s', pos)
    {
      if pos.offset < At(s.site.committed, pos.part) {
        StaysAccounted(s, s', pos);
      } else {
        assert pos == s.pc.pos;
        StaysAccounted(s, s', s.pc.pos);
      }
    }
    forall part
      ensures At(s'.site.position, part) == At(s'.site.committed, part) <= |Log(s', part)|
    {
    }
  }

  lemma PollKeepsConsume(s: State, part: Part)
    requires ConsumeInv(s)
    ensures ConsumeInv(PollPartition(s, part))
  {
    hide RowOf, Skipped;
    var s' := PollPartition(s, part);
    forall pos: Pos | pos.offset < At(s'.site.committed, pos.part) && InLog(s', pos)
      ensures Accounted(s', pos)
    {
      StaysAccounted(s, s', pos);
    }
  }

  lemma CrashKeepsConsume(s: State)
    requires ConsumeInv(s)
    ensures ConsumeInv(s.(site := Restart(s.site), pc := Idle))
  {
    hide RowOf, Skipped;
    var s' := s.(site := Restart(s.site), pc := Idle);
    forall pos: Pos | pos.offset < At(s'.site.committed, pos.part) && InLog(s', pos)
      ensures Accounted(s', pos)
    {
      StaysAccounted(s, s', pos);
    }
  }


  ghost predicate Kept(s: State, s': State) {
    TableInv(s') && ConsumeInv(s') && LogsExtend(s, s') && SiteExtends(s.site, s'.site)
  }

  lemma NextKeepsConsume(s: State, step: Step)
    requires TableInv(s) && ConsumeInv(s)
    ensures Kept(s, Next(s, step))
  {
    var s' := Next(s, step);
    if Ingesting(step) {
      IngestingFrame(s, step);
      hide Next, InLog, OfferInv, RowOf, Skipped;
      ConsumeInvKept(s, s');
      TablesKept(s, s');
    } else {
      ConsumerNextKeeps(s, step);
    }
  }

  lemma ConsumerNextKeeps(s: State, step: Step)
    requires TableInv(s) && ConsumeInv(s) && !Ingesting(step)
    ensures Kept(s, Next(s, step))
  {
    hide ConsumeInv, TableInv, WriteOnce, Handle, BeginRequest, ProduceMessage, Commit, KeyOf;
    match step {
      case Poll(part) =>
        PollKeepsConsume(s, part);
        TablesKept(s, PollPartition(s, part));
      case RunHandler(w) =>
        if s.pc.Fetched? && InLog(s, s.pc.pos) {
          HandlerKeepsTables(s, w);
          HandlerKeepsConsume(s, w);
        }
      case PublishDeadLetter(park) =>
        if s.pc.Parking? && InLog(s, s.pc.pos) {
          ParkKeepsConsume(s, park);
          TablesKept(s, ParkCurrent(s, park));
        }
      case SettleOffset =>
        if s.pc.Done? {
          SettleKeepsConsume(s);
          TablesKept(s, s.(site := SettleAt(s.site, s.pc.pos, s.pc.handled), pc := Idle));
        }
      case CrashAndRestart =>
        CrashKeepsConsume(s);
        TablesKept(s, s.(site := Restart(s.site), pc := Idle));
    }
  }

  // ---- the ingestion half ----------------------------------------------------

  lemma IngestInvFrame(s: State, s': State)
    requires IngestInv(s) && s'.registry == s.registry && s'.requests == s.requests && LogsExtend(s, s')
    ensures IngestInv(s')
  {
    hide KeyOf;
    forall k | Published(s, k) ensures Published(s', k) { StaysPublished(s, s', k); }
    hide Published;
    forall q, r, k | HoldsKey(s', q, k) && HoldsKey(s', r, k) ensures q == r {
      assert HoldsKey(s, q, k) && HoldsKey(s, r, k);
    }
  }

  lemma ArriveKeeps(s: State, r: nat, a: Arrival)
    requires IngestInv(s) && r !in s.requests
    ensures IngestInv(s.(requests := s.requests[r := Request(a, Waiting)]))
  {
    hide KeyOf;
    var s' := s.(requests := s.requests[r := Request(a, Waiting)]);
    IngestInvFrame(s, s'.(requests := s.requests));
    PublishedFrame(s, s');
    hide Published;
    forall q, r', k | HoldsKey(s', q, k) && HoldsKey(s', r', k) ensures q == r' {
      assert HoldsKey(s, q, k) && HoldsKey(s, r', k);
    }
  }

  lemma PublishedFrame(s: State, s': State)
    requires s'.logs == s.logs
    ensures forall k :: Published(s', k) <==> Published(s, k)
  {
    forall k ensures Published(s', k) <==> Published(s, k) {
      if Published(s, k) { StaysPublished(s, s', k); }
      if Published(s', k) { StaysPublished(s', s, k); }
    }
  }

  // Changing one request's phase to one its own invariant allows, without
  // taking a lock someone else holds.
  lemma PhaseKeeps(s: State, r: nat, p: Phase)
    requires IngestInv(s) && r in s.requests
    requires RequestInv(s, Request(s.requests[r].arrival, p))
    requires Open(Request(s.requests[r].arrival, p)) ==>
               forall q, k :: HoldsKey(s, q, k) && KeyOf(s.requests[r].arrival) == Some(k) ==> q == r
    ensures IngestInv(WithPhase(s, r, p))
  {
    hide KeyOf;
    var s' := WithPhase(s, r, p);
    PublishedFrame(s, s');
    hide Published;
    forall q | q in s'.requests ensures RequestInv(s', s'.requests[q]) {
      assert RequestInv(s, s'.requests[q]) by {
        if q != r { assert RequestInv(s, s.requests[q]); }
      }
    }
    forall q, q', k | HoldsKey(s', q, k) && HoldsKey(s', q', k) ensures q == q' {
      if q != r { assert HoldsKey(s, q, k); }
      if q' != r { assert HoldsKey(s, q', k); }
    }
  }

  lemma BeginKeeps(s: State, r: nat)
    requires IngestInv(s) && r in s.requests && s.requests[r].phase.Waiting?
    ensures IngestInv(BeginRequest(s, r))
  {
    hide KeyOf, Published;
    match KeyOf(s.requests[r].arrival) {
      case None => PhaseKeeps(s, r, Refused);
      case Some(key) =>
        if !Locked(s, key) {
          PhaseKeeps(s, r, Registered(key !in s.registry));
        }
    }
  }

  lemma AppendPublishes(s: State, part: Part, m: Message)
    ensures Published(Append(s, part, Event(m)), m.key)
  {
    var s' := Append(s, part, Event(m));
    var pos := Pos(part, |Log(s, part)|);
    assert InLog(s', pos) && EntryAt(s', pos) == Event(m);
  }

  lemma ProduceKeeps(s: State, r: nat, part: Part, p: Publish)
    requires IngestInv(s) && r in s.requests && s.requests[r].phase == Registered(true)
    requires KeyOf(s.requests[r].arrival).Some?
    ensures IngestInv(ProduceMessage(s, r, part, p))
  {
    hide KeyOf;
    var a := s.requests[r].arrival;
    var m := MessageOf(a, KeyOf(a).value);
    var s1 := if p.BrokerLost? then s else Append(s, part, Event(m));
    AppendExtends(s, part, Event(m));
    AppendPublishes(s, part, m);
    IngestInvFrame(s, s1);
    hide Published;
    assert RequestInv(s, s.requests[r]);
    assert HoldsKey(s1, r, KeyOf(a).value);
    PhaseKeeps(s1, r, if p.BrokerAck? then BrokerAcked else Refused);
  }

  lemma CommitKeeps(s: State, r: nat, acked: bool)
    requires IngestInv(s) && r in s.requests && KeyOf(s.requests[r].arrival).Some?
    requires s.requests[r].phase.BrokerAcked? || s.requests[r].phase == Registered(false)
    ensures IngestInv(Commit(s, r, acked))
  {
    hide KeyOf;
    var key := KeyOf(s.requests[r].arrival).value;
    var s' := Commit(s, r, acked);
    PublishedFrame(s, s');
    hide Published;
    assert RequestInv(s, s.requests[r]);
    assert HoldsKey(s, r, key);
    forall q | q in s'.requests ensures RequestInv(s', s'.requests[q]) {
      if q != r {
        assert RequestInv(s, s.requests[q]);
        assert HoldsKey(s, q, key) ==> q == r;
      }
    }
    forall q, q', k | HoldsKey(s', q, k) && HoldsKey(s', q', k) ensures q == q' {
      assert HoldsKey(s, q, k) && HoldsKey(s, q', k);
    }
  }

  lemma NextKeepsIngest(s: State, step: Step)
    requires IngestInv(s)
    requires LogsExtend(s, Next(s, step))
    ensures IngestInv(Next(s, step))
  {
    hide KeyOf, IngestInv, BeginRequest, ProduceMessage, Commit, LogsExtend, Handle;
    match step {
      case Arrive(r, a) => if r !in s.requests { ArriveKeeps(s, r, a); }
      case Begin(r) => if r in s.requests && s.requests[r].phase.Waiting? { BeginKeeps(s, r); }
      case Produce(r, part, p) =>
        if r in s.requests && s.requests[r].phase == Registered(true) && KeyOf(s.requests[r].arrival).Some? {
          ProduceKeeps(s, r, part, p);
        }
      case CommitRegistration(r, acked) =>
        if r in s.requests && KeyOf(s.requests[r].arrival).Some?
           && (s.requests[r].phase.BrokerAcked? || s.requests[r].phase == Registered(false)) {
          CommitKeeps(s, r, acked);
        }
      case Abort(r) =>
        if r in s.requests && !s.requests[r].phase.Answered? { PhaseKeeps(s, r, Refused); }
      case _ => IngestInvFrame(s, Next(s, step));
    }
  }

  lemma {:induction false} AlwaysInv(steps: seq<Step>)
    ensures Inv(Run(steps))
  {
    if steps != [] {
      var (init, last) := (steps[..|steps| - 1], steps[|steps| - 1]);
      AlwaysInv(init);
      NextKeepsConsume(Run(init), last);
      NextKeepsIngest(Run(init), last);
    } else {
      hide KeyOf, RowOf, Skipped;
    }
  }

  // ---- main results ------------------------------------------------------------

  // No loss. In every reachable state, every event answered with 200 (as new
  // or as a duplicate) has a message under its key in the broker's logs, and
  // every offset below a committed offset was written to Silver, or skipped
  // with its Bronze row kept, or parked in the dead-letter topic.
  lemma NoLoss(steps: seq<Step>)
    ensures var s := Run(steps);
      && (forall r :: r in s.requests && s.requests[r].phase.Answered? ==>
            KeyOf(s.requests[r].arrival).Some? && Published(s, KeyOf(s.requests[r].arrival).value))
      && (forall pos: Pos :: pos.offset < At(s.site.committed, pos.part) ==> InLog(s, pos) && Accounted(s, pos))
  {
    AlwaysInv(steps);
    var s := Run(steps);
    forall r | r in s.requests && s.requests[r].phase.Answered?
      ensures KeyOf(s.requests[r].arrival).Some? && Published(s, KeyOf(s.requests[r].arrival).value)
    {
      assert RequestInv(s, s.requests[r]);
    }
  }

  // A message as ingestion builds it: its key is the ingestion key of its
  // content, and its event type was read from its payload.
  predicate Genuine(m: Message) {
    && IngestKey(m.psp, m.eventType, m.payload, m.contentHash) == Some(m.key)
    && m.eventType == EventTypeOf(m.payload)
  }

  // For messages that came through ingestion, the Silver row the consumer
  // answers for is the one under the key the event was registered with.
  lemma IngestedReachesSilver(steps: seq<Step>, pos: Pos)
    requires pos.offset < At(Run(steps).site.committed, pos.part)
    ensures var s := Run(steps);
      && InLog(s, pos)
      && (EntryAt(s, pos).Event? && Genuine(EntryAt(s, pos).m) && !Skipped(EntryAt(s, pos).m)
          && DeadLetter(pos, EntryAt(s, pos)) !in s.site.deadLetters
          ==> EntryAt(s, pos).m.key in s.site.tables.silver)
  {
    NoLoss(steps);
    var s := Run(steps);
    if EntryAt(s, pos).Event? && Genuine(EntryAt(s, pos).m) && !Skipped(EntryAt(s, pos).m) {
      var m := EntryAt(s, pos).m;
      hide Normalise, Strip, Lower;
      SilverKeyIsIngestKey(m.psp, m.payload, m.contentHash);
    }
  }

  // Effectively once. Under any redelivery, double publish or restart, Silver
  // equals the reference map that keeps the first offer under each key; every
  // offer is the row of one logged message whose Bronze row exists; and
  // Bronze holds, per offset, exactly what the log holds there.
  lemma EffectivelyOnce(steps: seq<Step>)
    ensures var s := Run(steps);
      && (forall k: string :: k in s.site.tables.silver <==> FirstOffer(s.site.tables.offered, k).Some?)
      && (forall k: string :: k in s.site.tables.silver ==>
            && Some(s.site.tables.silver[k]) == FirstOffer(s.site.tables.offered, k)
            && s.site.tables.silver[k].row.key == k)
      && (forall o :: o in s.site.tables.offered ==>
            && InLog(s, o.bronze) && EntryAt(s, o.bronze).Event? && o.row == RowOf(EntryAt(s, o.bronze).m)
            && o.bronze in s.site.tables.bronze)
      && (forall p :: p in s.site.tables.bronze ==>
            InLog(s, p) && EntryAt(s, p).Event? && s.site.tables.bronze[p] == BronzeOf(EntryAt(s, p).m))
  {
    AlwaysInv(steps);
    var s := Run(steps);
    forall o | o in s.site.tables.offered
      ensures InLog(s, o.bronze) && EntryAt(s, o.bronze).Event? && o.row == RowOf(EntryAt(s, o.bronze).m)
      ensures o.bronze in s.site.tables.bronze
    {
      assert OfferInv(s, o);
    }
  }

  // Nothing recorded is ever changed or dropped by a continuation of the run.
  lemma {:induction false} RunExtends(steps: seq<Step>, more: seq<Step>)
    ensures LogsExtend(Run(steps), Run(steps + more))
    ensures SiteExtends(Run(steps).site, Run(steps + more).site)
  {
    hide KeyOf, RowOf, Skipped, BronzeOf, WriteOnce, IngestInv, ConsumeInv, TableInv,
         BeginRequest, ProduceMessage, Commit;
    if more == [] {
      assert steps + more == steps;
    } else {
      var init := more[..|more| - 1];
      RunExtends(steps, init);
      assert (steps + more)[..|steps + more| - 1] == steps + init;
      AlwaysInv(steps + init);
      hide Run, Next;
      RunUnfolds(steps + init, more[|more| - 1], steps + more);
      NextKeepsConsume(Run(steps + init), more[|more| - 1]);
    }
  }

  lemma RunUnfolds(init: seq<Step>, last: Step, steps: seq<Step>)
    requires |steps| == |init| + 1 && steps[..|steps| - 1] == init && steps[|steps| - 1] == last
    ensures Run(steps) == Next(Run(init), last)
  {
  }

  // ---- the registry under concurrency -------------------------------------------

  function CountCommits(commits: seq<(string, bool)>, key: string): nat {
    if commits == [] then 0
    else CountCommits(commits[..|commits| - 1], key) + if commits[|commits| - 1].0 == key then 1 else 0
  }

  function CountNew(commits: seq<(string, bool)>, key: string): nat {
    if commits == [] then 0
    else CountNew(commits[..|commits| - 1], key) + if commits[|commits| - 1] == (key, true) then 1 else 0
  }

  ghost predicate CommitsInv(s: State) {
    forall k: string ::
      && Occurrences(s.registry, k) == CountCommits(s.commits, k)
      && CountNew(s.commits, k) == if k in s.registry then 1 else 0
  }

  lemma NextKeepsCommits(s: State, step: Step)
    requires IngestInv(s) && CommitsInv(s)
    ensures CommitsInv(Next(s, step))
  {
    hide KeyOf, Handle, Locked;
    if step.CommitRegistration? && step.r in s.requests {
      assert RequestInv(s, s.requests[step.r]);
      var s' := Next(s, step);
      hide Published;
      if s'.commits != s.commits {
        assert s'.commits[..|s.commits|] == s.commits;
      }
    }
  }

  // Any number of concurrent deliveries: the occurrence count of a key is the
  // number of calls that committed, and of those calls exactly one was told
  // the event is new (none while the key has no row).
  lemma {:induction false} RegistryCounts(steps: seq<Step>)
    ensures CommitsInv(Run(steps))
  {
    if steps != [] {
      RegistryCounts(steps[..|steps| - 1]);
      AlwaysInv(steps[..|steps| - 1]);
      NextKeepsCommits(Run(steps[..|steps| - 1]), steps[|steps| - 1]);
    }
  }

  // No registry row of the key, and nobody holding its lock.
  predicate KeyFree(s: State, key: string) { key !in s.registry && !Locked(s, key) }

  predicate BeginsKey(s: State, step: Step, key: string) {
    step.Begin? && step.r in s.requests && KeyOf(s.requests[step.r].arrival) == Some(key)
  }

  // None of the steps `between` begins a delivery of the key.
  ghost predicate NoneBegins(before: seq<Step>, between: seq<Step>, key: string) {
    forall n :: 0 <= n < |between| ==> !BeginsKey(Run(before + between[..n]), between[n], key)
  }

  lemma StepKeepsFree(s: State, step: Step, key: string)
    requires KeyFree(s, key) && !BeginsKey(s, step, key)
    ensures KeyFree(Next(s, step), key)
  {
    hide KeyOf, Handle, MessageOf, SettleAt, Restart, Locked, BeginRequest;
    NotHeld(s, key);
    var s' := Next(s, step);
    match step {
      case Arrive(r, a) => assert forall q :: q in s.requests ==> !HoldsKey(s, q, key);
      case Begin(r) =>
        if r in s.requests && s.requests[r].phase.Waiting? { BeginElsewhere(s, r, key); }
      case Produce(r, part, p) => assert !HoldsKey(s, r, key);
      case CommitRegistration(r, acked) => assert !HoldsKey(s, r, key);
      case Abort(r) => assert !HoldsKey(s, r, key);
      case _ =>
    }
    forall q | q in s'.requests ensures !HoldsKey(s', q, key) {
      if q in s.requests { assert !HoldsKey(s, q, key); }
    }
    Unheld(s', key);
  }

  lemma BeginElsewhere(s: State, r: nat, key: string)
    requires r in s.requests && KeyOf(s.requests[r].arrival) != Some(key)
    ensures BeginRequest(s, r).registry == s.registry
    ensures BeginRequest(s, r).requests.Keys == s.requests.Keys
    ensures forall q :: q in s.requests && !HoldsKey(s, q, key) ==> !HoldsKey(BeginRequest(s, r), q, key)
  {
    hide KeyOf, Locked;
  }

  lemma NotHeld(s: State, key: string)
    requires !Locked(s, key)
    ensures forall q :: q in s.requests ==> !HoldsKey(s, q, key)
  {
  }

  lemma Unheld(s: State, key: string)
    requires forall q :: q in s.requests ==> !HoldsKey(s, q, key)
    ensures !Locked(s, key)
  {
  }

  lemma {:induction false} StaysFree(before: seq<Step>, between: seq<Step>, key: string)
    requires KeyFree(Run(before), key) && NoneBegins(before, between, key)
    ensures KeyFree(Run(before + between), key)
  {
    hide KeyFree, BeginsKey, Next;
    if between == [] {
      assert before + between == before;
    } else {
      var init := between[..|between| - 1];
      forall n | 0 <= n < |init| ensures !BeginsKey(Run(before + init[..n]), init[n], key) {
        assert init[..n] == between[..n];
      }
      StaysFree(before, init, key);
      RunUnfolds(before + init, between[|init|], before + between);
      StepKeepsFree(Run(before + init), between[|init|], key);
    }
  }

  // After a failed publish the key is free again: whatever happens next, the
  // first delivery of the same event to begin afterwards is new once more.
  lemma RetryAfterFailedPublishIsNew(
    before: seq<Step>, r: nat, part: Part, p: Publish, between: seq<Step>, r2: nat, key: string)
    requires var s := Run(before);
      r in s.requests && s.requests[r].phase == Registered(true) && KeyOf(s.requests[r].arrival) == Some(key)
    requires !p.BrokerAck? && NoneBegins(before + [Produce(r, part, p)], between, key)
    requires var s := Run(before + [Produce(r, part, p)] + between);
      r2 in s.requests && s.requests[r2].phase.Waiting? && KeyOf(s.requests[r2].arrival) == Some(key)
    ensures var failed := Run(before + [Produce(r, part, p)]);
      r in failed.requests && failed.requests[r].phase == Refused && failed.registry == Run(before).registry
    ensures var s2 := Run(before + [Produce(r, part, p)] + between + [Begin(r2)]);
      key !in s2.registry && r2 in s2.requests && s2.requests[r2].phase == Registered(true)
  {
    hide KeyOf, Next, IngestInv, ConsumeInv, TableInv, Locked, NoneBegins;
    var failed := before + [Produce(r, part, p)];
    AlwaysInv(before);
    FailedPublishFreesKey(Run(before), r, part, p);
    RunUnfolds(before, Produce(r, part, p), failed);
    StaysFree(failed, between, key);
    BeginIsNew(Run(failed + between), r2);
    RunUnfolds(failed + between, Begin(r2), failed + between + [Begin(r2)]);
  }

  lemma BeginIsNew(s: State, r: nat)
    requires r in s.requests && s.requests[r].phase.Waiting? && KeyOf(s.requests[r].arrival).Some?
    requires var key := KeyOf(s.requests[r].arrival).value; key !in s.registry && !Locked(s, key)
    ensures Next(s, Begin(r)) == WithPhase(s, r, Registered(true))
  {
    hide KeyOf, Locked, Handle;
  }

  lemma FailedPublishFreesKey(s: State, r: nat, part: Part, p: Publish)
    requires IngestInv(s) && r in s.requests && s.requests[r].phase == Registered(true) && !p.BrokerAck?
    ensures KeyOf(s.requests[r].arrival).Some?
    ensures var (s1, key) := (Next(s, Produce(r, part, p)), KeyOf(s.requests[r].arrival).value);
      && s1.registry == s.registry && key !in s1.registry && !Locked(s1, key)
      && s1.requests == s.requests[r := Request(s.requests[r].arrival, Refused)]
  {
    hide KeyOf, Published;
    assert RequestInv(s, s.requests[r]);
    var key := KeyOf(s.requests[r].arrival).value;
    assert HoldsKey(s, r, key);
    var s1 := Next(s, Produce(r, part, p));
    forall q | q in s1.requests ensures !HoldsKey(s1, q, key) {
      assert HoldsKey(s, q, key) ==> q == r;
    }
  }

  // ---- progress of the consumer, in any run ------------------------------------------

  // How often `pos` was rewound to since the worker last started.
  function Rewound(steps: seq<Step>, pos: Pos): nat {
    if steps == [] then 0
    else
      var (init, last) := (steps[..|steps| - 1], steps[|steps| - 1]);
      if last.CrashAndRestart? then 0
      else Rewound(init, pos) + if last.SettleOffset? && Run(init).pc == Done(pos, false) then 1 else 0
  }

  // How often its dead-letter publish failed since then.
  function FailedLetters(steps: seq<Step>, pos: Pos): nat {
    if steps == [] then 0
    else
      var (init, last) := (steps[..|steps| - 1], steps[|steps| - 1]);
      if last.CrashAndRestart? then 0
      else FailedLetters(init, pos) + if LetterFails(Run(init), last, pos) then 1 else 0
  }

  predicate LetterFails(s: State, step: Step, pos: Pos) {
    step.PublishDeadLetter? && s.pc == Parking(pos) && InLog(s, pos) && !step.park.Acked?
  }

  function Spent(s: State, pos: Pos): int {
    Min(AttemptsAt(s.site.attempts, pos), MAX_TRANSIENT_ATTEMPTS - 1)
  }

  // Nothing yet for messages not reached; for the message the partition
  // stands at, the exact account, with a rewind that is still to come.
  ghost predicate RewindInv(s: State, rewinds: nat, failed: nat, pos: Pos) {
    var head := At(s.site.committed, pos.part);
    && (pos.offset > head ==> rewinds == 0 && failed == 0 && AttemptsAt(s.site.attempts, pos) == 0)
    && (pos.offset == head ==> rewinds + (if s.pc == Done(pos, false) then 1 else 0) == Spent(s, pos) + failed)
    && rewinds <= MAX_TRANSIENT_ATTEMPTS - 1 + failed
  }

  lemma HandlerKeepsRewinds(s: State, w: Weather, rewinds: nat, failed: nat, pos: Pos)
    requires ConsumeInv(s) && s.pc.Fetched? && InLog(s, s.pc.pos) && RewindInv(s, rewinds, failed, pos)
    ensures RewindInv(HandleFetched(s, w), rewinds, failed, pos)
  {
    hide Handle, Accounted, InLog;
    assert BusyInv(s, s.pc.pos);
    HandleShape(s.site, s.pc.pos, EntryAt(s, s.pc.pos), w);
    HandleCounts(s.site, s.pc.pos, EntryAt(s, s.pc.pos), w);
  }

  lemma NextKeepsRewinds(s: State, step: Step, rewinds: nat, failed: nat, pos: Pos)
    requires ConsumeInv(s) && RewindInv(s, rewinds, failed, pos) && !step.CrashAndRestart?
    ensures RewindInv(Next(s, step),
                      rewinds + (if step.SettleOffset? && s.pc == Done(pos, false) then 1 else 0),
                      failed + (if LetterFails(s, step, pos) then 1 else 0), pos)
  {
    if Ingesting(step) {
      IngestingFrame(s, step);
      hide Next, ConsumeInv;
    } else {
      ConsumerKeepsRewinds(s, step, rewinds, failed, pos);
    }
  }

  lemma ConsumerKeepsRewinds(s: State, step: Step, rewinds: nat, failed: nat, pos: Pos)
    requires ConsumeInv(s) && RewindInv(s, rewinds, failed, pos) && !step.CrashAndRestart? && !Ingesting(step)
    ensures RewindInv(Next(s, step),
                      rewinds + (if step.SettleOffset? && s.pc == Done(pos, false) then 1 else 0),
                      failed + (if LetterFails(s, step, pos) then 1 else 0), pos)
  {
    hide Handle, Accounted, HandleFetched, BeginRequest, ProduceMessage, Commit, KeyOf;
    if !s.pc.Idle? { assert BusyInv(s, s.pc.pos); }
    match step {
      case RunHandler(w) =>
        if s.pc.Fetched? && InLog(s, s.pc.pos) { HandlerKeepsRewinds(s, w, rewinds, failed, pos); }
      case _ =>
    }
  }

  lemma {:induction false} RewindsAlways(steps: seq<Step>, pos: Pos)
    ensures RewindInv(Run(steps), Rewound(steps, pos), FailedLetters(steps, pos), pos)
  {
    if steps != [] {
      var (init, last) := (steps[..|steps| - 1], steps[|steps| - 1]);
      RewindsAlways(init, pos);
      AlwaysInv(init);
      hide Next, ConsumeInv, IngestInv, TableInv;
      if last.CrashAndRestart? {
        CrashForgets(Run(init), pos);
      } else {
        NextKeepsRewinds(Run(init), last, Rewound(init, pos), FailedLetters(init, pos), pos);
      }
    }
  }

  lemma CrashForgets(s: State, pos: Pos)
    ensures RewindInv(Next(s, CrashAndRestart), 0, 0, pos)
  {
  }

  // In every run, since the worker last started, an offset was rewound to at
  // most four times plus once for every failed publish to the dead-letter
  // topic.
  lemma RewindBoundAlways(steps: seq<Step>, pos: Pos)
    ensures Rewound(steps, pos) <= MAX_TRANSIENT_ATTEMPTS - 1 + FailedLetters(steps, pos)
  {
    hide Rewound, FailedLetters, Run;
    RewindsAlways(steps, pos);
  }

  // ---- the retry policy, in any run ---------------------------------------------------

  // What the handler would report about the message in hand.
  function Report(s: State, w: Weather): Said
    requires s.pc.Fetched? && InLog(s, s.pc.pos)
  {
    var e := EntryAt(s, s.pc.pos);
    if e.Garbage? then Undecodable else Reported(Process(s.site.tables, s.pc.pos, e, w).1)
  }

  predicate Handles(s: State, step: Step) { step.RunHandler? && s.pc.Fetched? && InLog(s, s.pc.pos) }

  // How often a transient error was reported for `pos` since the worker last
  // started.
  function Transients(steps: seq<Step>, pos: Pos): nat {
    if steps == [] then 0
    else
      var (init, last) := (steps[..|steps| - 1], steps[|steps| - 1]);
      if last.CrashAndRestart? then 0
      else Transients(init, pos) + if FailsTransiently(Run(init), last, pos) then 1 else 0
  }

  predicate FailsTransiently(s: State, step: Step, pos: Pos) {
    Handles(s, step) && s.pc.pos == pos && Report(s, step.weather) == Reported(TransientError)
  }

  // What was last reported.
  function LastReport(steps: seq<Step>): Option<Said> {
    if steps == [] then None
    else
      var (init, last) := (steps[..|steps| - 1], steps[|steps| - 1]);
      if Handles(Run(init), last) then Some(Report(Run(init), last.weather)) else LastReport(init)
  }

  // Reason enough to give a message up, after so many transient errors.
  predicate Hopeless(said: Said, transients: nat) {
    || said == Undecodable || said == Reported(PermanentError)
    || (said == Reported(TransientError) && transients >= 5)
  }

  ghost predicate PolicyInv(s: State, n: nat, said: Option<Said>, pos: Pos) {
    var head := At(s.site.committed, pos.part);
    && (pos.offset > head ==> n == 0 == AttemptsAt(s.site.attempts, pos))
    && (pos.offset == head ==> n == AttemptsAt(s.site.attempts, pos))
    && (s.pc == Parking(pos) ==> said.Some? && Hopeless(said.value, n))
  }

  lemma HandlerKeepsPolicy(s: State, w: Weather, n: nat, said: Option<Said>, pos: Pos)
    requires ConsumeInv(s) && s.pc.Fetched? && InLog(s, s.pc.pos) && PolicyInv(s, n, said, pos)
    ensures var m := n + if FailsTransiently(s, RunHandler(w), pos) then 1 else 0;
      PolicyInv(HandleFetched(s, w), m, Some(Report(s, w)), pos)
  {
    hide Handle, Process, Accounted, InLog;
    assert BusyInv(s, s.pc.pos);
    HandleShape(s.site, s.pc.pos, EntryAt(s, s.pc.pos), w);
    HandleBySaid(s.site, s.pc.pos, EntryAt(s, s.pc.pos), w);
  }

  lemma OthersKeepPolicy(s: State, step: Step, n: nat, said: Option<Said>, pos: Pos)
    requires ConsumeInv(s) && PolicyInv(s, n, said, pos) && !step.CrashAndRestart? && !Handles(s, step)
    ensures PolicyInv(Next(s, step), n, said, pos)
  {
    if Ingesting(step) {
      IngestingFrame(s, step);
      hide Next, ConsumeInv;
    } else {
      ConsumerStepsKeepPolicy(s, step, n, said, pos);
    }
  }

  lemma ConsumerStepsKeepPolicy(s: State, step: Step, n: nat, said: Option<Said>, pos: Pos)
    requires ConsumeInv(s) && PolicyInv(s, n, said, pos)
    requires !step.CrashAndRestart? && !Handles(s, step) && !Ingesting(step)
    ensures PolicyInv(Next(s, step), n, said, pos)
  {
    hide Handle, Accounted, BeginRequest, ProduceMessage, Commit, KeyOf;
    if !s.pc.Idle? { assert BusyInv(s, s.pc.pos); }
  }

  lemma CrashForgetsPolicy(s: State, said: Option<Said>, pos: Pos)
    ensures PolicyInv(Next(s, CrashAndRestart), 0, said, pos)
  {
  }

  lemma {:induction false} PolicyAlways(steps: seq<Step>, pos: Pos)
    ensures PolicyInv(Run(steps), Transients(steps, pos), LastReport(steps), pos)
  {
    hide Next, ConsumeInv, IngestInv, TableInv, PolicyInv, Report;
    if steps == [] {
      NothingReported(pos);
    } else {
      var (init, last) := (steps[..|steps| - 1], steps[|steps| - 1]);
      PolicyAlways(init, pos);
      AlwaysInv(init);
      if last.CrashAndRestart? {
        CrashForgetsPolicy(Run(init), LastReport(init), pos);
      } else if Handles(Run(init), last) {
        HandlerKeepsPolicy(Run(init), last.weather, Transients(init, pos), LastReport(init), pos);
        NextIsHandle(Run(init), last);
      } else {
        OthersKeepPolicy(Run(init), last, Transients(init, pos), LastReport(init), pos);
      }
    }
  }

  lemma NothingReported(pos: Pos)
    ensures PolicyInv(Start(), 0, None, pos)
  {
  }

  lemma NextIsHandle(s: State, step: Step)
    requires Handles(s, step)
    ensures Next(s, step) == HandleFetched(s, step.weather)
  {
    hide Handle;
  }

  // In every run a message is dead-lettered only when it could not be
  // decoded, when the last attempt reported a permanent error, or when it
  // reported at least the fifth transient error since the worker last
  // started.
  lemma DeadLetterHasCause(steps: seq<Step>, step: Step)
    requires Run(steps + [step]).site.deadLetters != Run(steps).site.deadLetters
    ensures var s := Run(steps);
      && s.pc.Parking? && InLog(s, s.pc.pos)
      && Run(steps + [step]).site.deadLetters == s.site.deadLetters + [DeadLetter(s.pc.pos, EntryAt(s, s.pc.pos))]
      && LastReport(steps).Some?
      && Hopeless(LastReport(steps).value, Transients(steps, s.pc.pos))
  {
    hide Run, LastReport, Transients;
    RunUnfolds(steps, step, steps + [step]);
    LettersGrow(Run(steps), step);
    PolicyAlways(steps, Run(steps).pc.pos);
  }

  lemma LettersGrow(s: State, step: Step)
    requires Next(s, step).site.deadLetters != s.site.deadLetters
    ensures s.pc.Parking? && InLog(s, s.pc.pos)
    ensures Next(s, step).site.deadLetters == s.site.deadLetters + [DeadLetter(s.pc.pos, EntryAt(s, s.pc.pos))]
  {
    hide KeyOf, Locked, Handle;
    if Handles(s, step) {
      NextIsHandle(s, step);
      HandleShape(s.site, s.pc.pos, EntryAt(s, s.pc.pos), step.weather);
    }
  }

  // And a transient error that is not yet the fifth is retried: once the
  // worker has settled, nothing is committed or dead-lettered, it stands at
  // the same message again, and has counted the attempt.
  lemma TransientIsRetried(steps: seq<Step>, w: Weather)
    requires var s := Run(steps);
      s.pc.Fetched? && InLog(s, s.pc.pos) && Report(s, w) == Reported(TransientError)
      && Transients(steps, s.pc.pos) < 4
    ensures var (s, s') := (Run(steps), Run(steps + [RunHandler(w)] + [SettleOffset]));
      && s'.pc.Idle? && s'.site.committed == s.site.committed && s'.site.deadLetters == s.site.deadLetters
      && At(s'.site.position, s.pc.pos.part) == s.pc.pos.offset
      && AttemptsAt(s'.site.attempts, s.pc.pos) == Transients(steps, s.pc.pos) + 1
  {
    hide Run, Transients, Report, ConsumeInv, IngestInv, TableInv, Next;
    var s := Run(steps);
    AlwaysInv(steps);
    PolicyAlways(steps, s.pc.pos);
    StandsAtHead(s);
    RunUnfolds(steps, RunHandler(w), steps + [RunHandler(w)]);
    RunUnfolds(steps + [RunHandler(w)], SettleOffset, steps + [RunHandler(w)] + [SettleOffset]);
    RetriesOnce(s, w);
  }

  lemma StandsAtHead(s: State)
    requires ConsumeInv(s) && !s.pc.Idle?
    ensures s.pc.pos.offset == At(s.site.committed, s.pc.pos.part)
  {
    hide Accounted;
  }

  lemma RetriesOnce(s: State, w: Weather)
    requires s.pc.Fetched? && InLog(s, s.pc.pos) && Report(s, w) == Reported(TransientError)
    requires AttemptsAt(s.site.attempts, s.pc.pos) < 4
    ensures var s' := Next(Next(s, RunHandler(w)), SettleOffset);
      && s'.pc.Idle? && s'.site.committed == s.site.committed && s'.site.deadLetters == s.site.deadLetters
      && At(s'.site.position, s.pc.pos.part) == s.pc.pos.offset
      && AttemptsAt(s'.site.attempts, s.pc.pos) == AttemptsAt(s.site.attempts, s.pc.pos) + 1
  {
    hide Handle, Process, KeyOf, Locked;
    HandleShape(s.site, s.pc.pos, EntryAt(s, s.pc.pos), w);
    HandleBySaid(s.site, s.pc.pos, EntryAt(s, s.pc.pos), w);
    NextIsHandle(s, RunHandler(w));
  }

  // ---- what the rows say ---------------------------------------------------------------

  // Every Silver row is about the event of its own message: same PSP, event
  // type and reference, with the transaction type and settlement that the
  // event means. Every Bronze row carries its message's PSP and content hash.
  lemma RowsTellTheEvent(steps: seq<Step>, key: string)
    requires key in Run(steps).site.tables.silver
    ensures var s := Run(steps);
      var (row, pos) := (s.site.tables.silver[key].row, s.site.tables.silver[key].bronze);
      && InLog(s, pos) && EntryAt(s, pos).Event? && row.Row? && row.key == key
      && var m := EntryAt(s, pos).m;
         && row.psp == m.psp && Get(m.payload, "event") == Text(row.event)
         && Means(m.psp, row.event, m.payload, row.txType, row.settlement)
         && (forall t :: RefersBy(m.psp, m.payload, t) && t != "" ==> row.ref == Strip(t))
         && pos in s.site.tables.bronze && s.site.tables.bronze[pos] == BronzeRow(m.psp, m.contentHash)
  {
    hide Run, Normalise, Means, Strip, FirstOffer, Classify, RefersBy;
    EffectivelyOnce(steps);
    OwnerIsOffered(steps, key);
    var s := Run(steps);
    var o := s.site.tables.silver[key];
    OfferIsAccepted(steps, o);
    RowMeans(EntryAt(s, o.bronze).m.psp, EntryAt(s, o.bronze).m.payload);
  }

  // ---- what is published -------------------------------------------------------------------

  // A message that carries this very delivery.
  ghost predicate Carried(s: State, a: Arrival, key: string) {
    exists pos :: InLog(s, pos) && EntryAt(s, pos) == Event(Message(a.psp, a.eventType, a.payload, a.contentHash, key))
  }

  ghost predicate CarriedInv(s: State) {
    forall r :: r in s.requests && (s.requests[r].phase.BrokerAcked? || s.requests[r].phase == Answered(true)) ==>
      KeyOf(s.requests[r].arrival).Some? && Carried(s, s.requests[r].arrival, KeyOf(s.requests[r].arrival).value)
  }

  lemma StaysCarried(s: State, s': State, a: Arrival, key: string)
    requires LogsExtend(s, s') && Carried(s, a, key)
    ensures Carried(s', a, key)
  {
    var pos :| InLog(s, pos)
               && EntryAt(s, pos) == Event(Message(a.psp, a.eventType, a.payload, a.contentHash, key));
    assert InLog(s', pos) && EntryAt(s', pos) == EntryAt(s, pos);
  }

  lemma ProduceCarries(s: State, r: nat, part: Part)
    requires r in s.requests && KeyOf(s.requests[r].arrival).Some?
    ensures Carried(ProduceMessage(s, r, part, BrokerAck), s.requests[r].arrival, KeyOf(s.requests[r].arrival).value)
  {
    hide KeyOf;
    var s' := ProduceMessage(s, r, part, BrokerAck);
    var pos := Pos(part, |Log(s, part)|);
    assert InLog(s', pos);
  }

  lemma NextKeepsCarried(s: State, step: Step)
    requires IngestInv(s) && CarriedInv(s) && LogsExtend(s, Next(s, step))
    ensures CarriedInv(Next(s, step))
  {
    hide KeyOf, Carried, IngestInv, LogsExtend, Handle, Locked, MessageOf;
    var s' := Next(s, step);
    forall r | r in s'.requests && (s'.requests[r].phase.BrokerAcked? || s'.requests[r].phase == Answered(true))
      ensures KeyOf(s'.requests[r].arrival).Some?
      ensures Carried(s', s'.requests[r].arrival, KeyOf(s'.requests[r].arrival).value)
    {
      assert r in s.requests && s'.requests[r].arrival == s.requests[r].arrival;
      if s.requests[r].phase.BrokerAcked? || s.requests[r].phase == Answered(true) {
        StaysCarried(s, s', s.requests[r].arrival, KeyOf(s.requests[r].arrival).value);
      } else {
        assert step == Produce(r, step.part, BrokerAck);
        ProduceCarries(s, r, step.part);
      }
    }
  }

  lemma {:induction false} CarriedAlways(steps: seq<Step>)
    ensures CarriedInv(Run(steps))
  {
    hide Next, CarriedInv, ConsumeInv, TableInv, IngestInv;
    if steps == [] {
      NobodyCarried();
    } else {
      var (init, last) := (steps[..|steps| - 1], steps[|steps| - 1]);
      CarriedAlways(init);
      AlwaysInv(init);
      NextKeepsConsume(Run(init), last);
      NextKeepsCarried(Run(init), last);
    }
  }

  lemma NobodyCarried()
    ensures CarriedInv(Start())
  {
  }

  // An event answered as new is in the logs itself: its own PSP, type, payload
  // and hash, under its key.
  lemma NewEventIsPublished(steps: seq<Step>, r: nat)
    requires r in Run(steps).requests && Run(steps).requests[r].phase == Answered(true)
    ensures var a := Run(steps).requests[r].arrival;
      KeyOf(a).Some? && Carried(Run(steps), a, KeyOf(a).value)
  {
    hide Run, KeyOf, Carried;
    CarriedAlways(steps);
  }

  // ---- the sequential code runs the protocol --------------------------------------

  // One undisturbed `ingest_event` is the protocol's Begin, Produce and
  // Commit of one request.
  function Undisturbed(s: State, r: nat, part: Part, p: Publish): State {
    Next(Next(Next(s, Begin(r)), Produce(r, part, p)), CommitRegistration(r, true))
  }

  function PhaseAfter(response: Response): Phase {
    if response.Ok200? then Answered(response.isNew) else Refused
  }

  lemma IngestAloneIsARun(s: State, r: nat, part: Part, p: Publish)
    requires r in s.requests && s.requests[r].phase.Waiting?
    requires KeyOf(s.requests[r].arrival).Some? ==> !Locked(s, KeyOf(s.requests[r].arrival).value)
    ensures var s' := Undisturbed(s, r, part, p);
      var (rows, log, response) := IngestAlone(s.registry, Log(s, part), s.requests[r].arrival, p);
      && s'.registry == rows && Log(s', part) == log
      && (forall q :: q != part ==> Log(s', q) == Log(s, q))
      && s'.requests == s.requests[r := Request(s.requests[r].arrival, PhaseAfter(response))]
      && s'.site == s.site && s'.pc == s.pc
  {
    hide KeyOf, Locked, Handle, MessageOf;
    var s1 := Next(s, Begin(r));
    if KeyOf(s.requests[r].arrival).None? {
      assert s1 == WithPhase(s, r, Refused);
      assert Undisturbed(s, r, part, p) == s1;
    } else {
      assert s1 == WithPhase(s, r, Registered(KeyOf(s.requests[r].arrival).value !in s.registry));
      RegisteredRun(s1, r, part, p);
      hide Next;
      assert Log(s1, part) == Log(s, part);
    }
  }

  lemma RegisteredRun(s: State, r: nat, part: Part, p: Publish)
    requires r in s.requests && KeyOf(s.requests[r].arrival).Some?
    requires s.requests[r].phase == Registered(KeyOf(s.requests[r].arrival).value !in s.registry)
    ensures var s' := Next(Next(s, Produce(r, part, p)), CommitRegistration(r, true));
      var (rows, log, response) := IngestAlone(s.registry, Log(s, part), s.requests[r].arrival, p);
      && s'.registry == rows && Log(s', part) == log
      && (forall q :: q != part ==> Log(s', q) == Log(s, q))
      && s'.requests == s.requests[r := Request(s.requests[r].arrival, PhaseAfter(response))]
      && s'.site == s.site && s'.pc == s.pc
  {
    hide KeyOf, Locked, Handle, MessageOf;
    var s2 := Next(s, Produce(r, part, p));
    if KeyOf(s.requests[r].arrival).value in s.registry {
      assert s2 == s;
    } else {
      assert s2 == ProduceMessage(s, r, part, p);
    }
  }

  // One undisturbed iteration of the worker's loop is the protocol's Poll,
  // handler, dead-letter publish (if one is needed) and offset settlement.
  lemma TakeIsARun(s: State, part: Part, w: Weather, park: Park)
    requires s.pc.Idle? && InLog(s, Pos(part, At(s.site.position, part)))
    ensures var t := Turn(part, EntryAt(s, Pos(part, At(s.site.position, part))), w, park);
      Next(Next(Next(Next(s, Poll(part)), RunHandler(w)), PublishDeadLetter(park)), SettleOffset)
      == s.(site := Take(s.site, t))
  {
    hide Handle, DeadLetterIt, SettleAt;
    var pos := Pos(part, At(s.site.position, part));
    var t := Turn(part, EntryAt(s, pos), w, park);
    var (site, next) := AfterHandle(s.site, t);
    var s1 := Next(s, Poll(part));
    assert s1 == s.(site := Fetch(s.site, part), pc := Fetched(pos)) && EntryAt(s1, pos) == t.entry;
    var s2 := Next(s1, RunHandler(w));
    assert s2 == s.(site := site, pc := if next.ParkIt? then Parking(pos) else Done(pos, next.handled));
    var s3 := Next(s2, PublishDeadLetter(park));
    if next.ParkIt? {
      assert EntryAt(s2, pos) == t.entry;
      var (site', ok) := DeadLetterIt(site, pos, t.entry, park);
      assert s3 == s.(site := site', pc := Done(pos, ok));
      assert ok == park.Acked? by { Acknowledged(site, pos, t.entry, park); }
    }
  }

  lemma Acknowledged(t: Site, pos: Pos, e: Entry, park: Park)
    ensures DeadLetterIt(t, pos, e, park).1 == park.Acked?
  {
  }

  // ---- from the answer to the Silver row ---------------------------------------------

  // An event as its connector hands it over, which the classifier accepts and
  // whose reference is not blank.
  predicate Recordable(a: Arrival) {
    && a.eventType == EventTypeOf(a.payload) && Get(a.payload, "event").Text?
    && Classify(a.psp, a.eventType, a.payload).Accept? && Strip(RawRef(a.psp, a.payload)) != ""
  }

  // A message under `key` at `pos`.
  predicate CarriesKey(s: State, pos: Pos, key: string) {
    InLog(s, pos) && EntryAt(s, pos).Event? && EntryAt(s, pos).m.key == key
  }

  // Everything in the logs came through ingestion, and what is logged under
  // the key was consumed without ending in the dead-letter topic.
  ghost predicate Digested(s: State, key: string) {
    && (forall pos :: InLog(s, pos) && EntryAt(s, pos).Event? ==> Genuine(EntryAt(s, pos).m))
    && (forall pos :: CarriesKey(s, pos, key) ==>
          pos.offset < At(s.site.committed, pos.part) && DeadLetter(pos, EntryAt(s, pos)) !in s.site.deadLetters)
  }

  // One message under the key is one that the classifier accepts.
  ghost predicate AcceptedCopy(s: State, key: string) {
    exists pos :: CarriesKey(s, pos, key) && !Skipped(EntryAt(s, pos).m)
  }

  lemma DigestedIffAccepted(steps: seq<Step>, key: string)
    requires Digested(Run(steps), key)
    ensures key in Run(steps).site.tables.silver <==> AcceptedCopy(Run(steps), key)
  {
    hide Run, Normalise, Strip, Lower, Classify, FirstOffer, Accounted;
    var s := Run(steps);
    EffectivelyOnce(steps);
    if pos :| CarriesKey(s, pos, key) && !Skipped(EntryAt(s, pos).m) {
      IngestedReachesSilver(steps, pos);
    }
    if key in s.site.tables.silver {
      var o := s.site.tables.silver[key];
      OwnerIsOffered(steps, key);
      OfferIsAccepted(steps, o);
      var m := EntryAt(s, o.bronze).m;
      assert Genuine(m);
      SilverKeyIsIngestKey(m.psp, m.payload, m.contentHash);
      assert CarriesKey(s, o.bronze, key);
    }
  }

  lemma OwnerIsOffered(steps: seq<Step>, key: string)
    requires key in Run(steps).site.tables.silver
    ensures Run(steps).site.tables.silver[key] in Run(steps).site.tables.offered
    ensures Run(steps).site.tables.silver[key].row.Row? && Run(steps).site.tables.silver[key].row.key == key
  {
    hide Run;
    EffectivelyOnce(steps);
    var s := Run(steps);
    assert FirstOffer(s.site.tables.offered, key).Some?;
  }

  lemma OfferIsAccepted(steps: seq<Step>, o: SilverRow)
    requires o in Run(steps).site.tables.offered
    ensures var s := Run(steps);
      && InLog(s, o.bronze) && EntryAt(s, o.bronze).Event? && !Skipped(EntryAt(s, o.bronze).m)
      && o.row == RowOf(EntryAt(s, o.bronze).m) && o.row.Row?
  {
    hide Run, RowOf, Skipped, IngestInv, ConsumeInv;
    AlwaysInv(steps);
    assert OfferInv(Run(steps), o);
  }

  // End to end: once the messages under its key are consumed, an event that
  // was answered 200 has a Silver row if and only if one of those messages is
  // one the classifier accepts, and the row is then for the same PSP,
  // reference and event type.
  lemma AnsweredIsRecordedIff(steps: seq<Step>, r: nat, key: string)
    requires var s := Run(steps);
      && r in s.requests && s.requests[r].phase.Answered? && Recordable(s.requests[r].arrival)
      && KeyOf(s.requests[r].arrival) == Some(key) && Digested(s, key)
    ensures var (s, a) := (Run(steps), Run(steps).requests[r].arrival);
      && Published(s, key)
      && (key in s.site.tables.silver <==> AcceptedCopy(s, key))
      && (key in s.site.tables.silver ==>
            var row := s.site.tables.silver[key].row;
            row.Row? && row.psp == a.psp && row.ref == Strip(RawRef(a.psp, a.payload)) && row.event == a.eventType)
  {
    hide Run, Recordable, Digested, AcceptedCopy, KeyOf, Strip, RowOf, Skipped;
    NoLoss(steps);
    DigestedIffAccepted(steps, key);
    var s := Run(steps);
    if key in s.site.tables.silver {
      OwnerIsOffered(steps, key);
      OfferIsAccepted(steps, s.site.tables.silver[key]);
      SameEvent(s.requests[r].arrival, EntryAt(s, s.site.tables.silver[key].bronze).m, key);
    }
  }

  // A row under the key of a recordable event is a row for that event.
  lemma SameEvent(a: Arrival, m: Message, key: string)
    requires Recordable(a) && KeyOf(a) == Some(key) && RowOf(m).Row? && RowOf(m).key == key
    ensures var row := RowOf(m);
      row.psp == a.psp && row.ref == Strip(RawRef(a.psp, a.payload)) && row.event == a.eventType
  {
    hide Strip, Lower;
    RecordableRow(a);
    hide Normalise;
    SilverKeysDistinguish(a.psp, a.payload, m.psp, m.payload);
  }

  lemma RecordableRow(a: Arrival)
    requires Recordable(a)
    ensures (a.psp == "paystack" || a.psp == "flutterwave") && Normalise(a.psp, a.payload).Row?
    ensures var row := Normalise(a.psp, a.payload);
      && row.psp == a.psp && row.ref == Strip(RawRef(a.psp, a.payload)) && row.event == a.eventType
      && KeyOf(a) == Some(row.key)
  {
    hide Strip, Lower, BuildKey;
    SilverKeyIsIngestKey(a.psp, a.payload, a.contentHash);
    StripOfNothing();
  }

  // When no message under its key is accepted although the event itself
  // would be, the messages differ from it in one of two ways: in the content
  // that decides acceptance, or in an unrecognised event type that spells out
  // the tail of the event's reference.
  lemma SkippedCopies(a: Arrival, m: Message, ref: string)
    requires Recordable(a) && Genuine(m) && StorablePsp(m.psp) && KeyOf(a) == Some(m.key)
    requires ExtractRef(m.psp, m.payload, m.contentHash) == Some(ref)
    ensures Norm(m.psp) == Norm(a.psp)
    ensures var own := Strip(RawRef(a.psp, a.payload));
      || (Strip(ref) == own && Norm(m.eventType) == a.eventType)
      || (exists x: string :: Norm(m.eventType) == x + ":" + a.eventType && own == Strip(ref) + ":" + x)
  {
    hide Strip, Lower, Normalise, Norm, Recordable, BuildKey, ExtractRef, KeyOf, RawRef, StorablePsp;
    var own := Strip(RawRef(a.psp, a.payload));
    RecordableKey(a);
    MessageKey(m, ref);
    StorableColonFree(m.psp);
    KeyCollisions(a.psp, own, a.eventType, m.psp, ref, m.eventType);
    forall x: string ensures a.eventType != x + ":" + Norm(m.eventType) { HasColon(x, Norm(m.eventType)); }
  }

  lemma RecordableKey(a: Arrival)
    requires Recordable(a)
    ensures var own := Strip(RawRef(a.psp, a.payload));
      && KeyOf(a) == Some(BuildKey(a.psp, own, a.eventType)) && Strip(own) == own
      && ColonFree(a.psp) && ColonFree(a.eventType) && Norm(a.eventType) == a.eventType
  {
    hide Strip, Lower, Normalise, Norm, Recordable, BuildKey, KeyOf, RawRef;
    RecordableRow(a);
    RowIsPlain(a.psp, a.payload);
  }

  lemma MessageKey(m: Message, ref: string)
    requires Genuine(m) && ExtractRef(m.psp, m.payload, m.contentHash) == Some(ref)
    ensures m.key == BuildKey(m.psp, ref, m.eventType)
  {
    hide BuildKey, ExtractRef;
  }

  lemma StorableColonFree(psp: string)
    requires StorablePsp(psp)
    ensures ColonFree(psp)
  {
  }

  // ---- an accepted event without a row ---------------------------------------------------

  // Two deliveries, one after the other, and one pass of the worker.
  function TwoDeliveries(a: Arrival, b: Arrival, part: Part): seq<Step> {
    [Arrive(1, a), Begin(1), Produce(1, part, BrokerAck), CommitRegistration(1, true),
     Arrive(2, b), Begin(2), Produce(2, part, BrokerAck), CommitRegistration(2, true),
     Poll(part), RunHandler(Calm), PublishDeadLetter(Acked), SettleOffset]
  }

  lemma TwelveSteps(steps: seq<Step>)
    requires |steps| == 12
    ensures var s4 := Next(Next(Next(Next(Start(), steps[0]), steps[1]), steps[2]), steps[3]);
      var s8 := Next(Next(Next(Next(s4, steps[4]), steps[5]), steps[6]), steps[7]);
      Run(steps) == Next(Next(Next(Next(s8, steps[8]), steps[9]), steps[10]), steps[11])
  {
    hide Next, Start;
    forall n | 0 < n <= 12 ensures Run(steps[..n]) == Next(Run(steps[..n - 1]), steps[n - 1]) {
      var some := steps[..n];
      assert some[..|some| - 1] == steps[..n - 1] && some[|some| - 1] == steps[n - 1];
    }
    assert steps[..12] == steps && Run(steps[..0]) == Start();
  }

  // If the first event under a key is one the classifier skips, a second one
  // that it would accept is answered as a duplicate and never gets a row.
  lemma SkippedFirst(a: Arrival, b: Arrival, part: Part, key: string)
    requires KeyOf(a) == Some(key) && KeyOf(b) == Some(key)
    requires StorablePsp(a.psp) && Skipped(MessageOf(a, key))
    ensures var s := Run(TwoDeliveries(a, b, part));
      && 1 in s.requests && s.requests[1] == Request(a, Answered(true))
      && 2 in s.requests && s.requests[2] == Request(b, Answered(false))
      && Log(s, part) == [Event(MessageOf(a, key))] && (forall q :: q != part ==> Log(s, q) == [])
      && At(s.site.committed, part) == 1 && s.site.deadLetters == []
      && s.site.tables.silver == map[]
  {
    hide KeyOf, Next, Skipped, StorablePsp, Start, Run, Take;
    TwelveSteps(TwoDeliveries(a, b, part));
    var s1 := Next(Start(), Arrive(1, a));
    FirstArrives(a);
    IngestAloneIsARun(s1, 1, part, BrokerAck);
    var s4 := Undisturbed(s1, 1, part, BrokerAck);
    var s5 := Next(s4, Arrive(2, b));
    SecondArrives(s4, a, b);
    IngestAloneIsARun(s5, 2, part, BrokerAck);
    var s8 := Undisturbed(s5, 2, part, BrokerAck);
    FreshPosition(s8, part);
    TakeIsARun(s8, part, Calm, Acked);
    TakesSkipped(s8.site, part, MessageOf(a, key));
    SameLogs(s8, Run(TwoDeliveries(a, b, part)));
  }

  lemma SameLogs(s: State, s': State)
    requires s'.logs == s.logs
    ensures forall q :: Log(s', q) == Log(s, q)
  {
  }

  lemma FirstArrives(a: Arrival)
    ensures var s1 := Next(Start(), Arrive(1, a));
      && s1 == Start().(requests := map[1 := Request(a, Waiting)]) && s1.registry == map[]
      && (forall k :: !Locked(s1, k)) && (forall q :: Log(s1, q) == [])
  {
    hide KeyOf;
  }

  lemma SecondArrives(s: State, a: Arrival, b: Arrival)
    requires s.requests == map[1 := Request(a, Answered(true))]
    ensures var s5 := Next(s, Arrive(2, b));
      && s5 == s.(requests := map[1 := Request(a, Answered(true)), 2 := Request(b, Waiting)])
      && (forall k :: !Locked(s5, k)) && (forall q :: Log(s5, q) == Log(s, q))
  {
    hide KeyOf;
  }

  lemma FreshPosition(s: State, part: Part)
    requires s.site == Start().site
    ensures At(s.site.position, part) == 0 && At(s.site.committed, part) == 0
    ensures s.site.deadLetters == [] && s.site.tables.silver == map[] && s.site.tables.bronze == map[]
    ensures Start().pc.Idle?
  {
  }

  lemma TakesSkipped(t: Site, part: Part, m: Message)
    requires Skipped(m) && StorablePsp(m.psp) && At(t.position, part) == 0
    ensures var t' := Take(t, Turn(part, Event(m), Calm, Acked));
      && At(t'.committed, part) == 1 && t'.deadLetters == t.deadLetters && t'.tables.silver == t.tables.silver
  {
    hide Skipped, StorablePsp, RowOf;
  }

  // A Flutterwave charge as its webhook delivers it.
  function Charge(ref: string, status: string): Payload {
    map["event" := Text("charge.completed"), "data" := Object("", map["tx_ref" := Text(ref), "status" := Text(status)])]
  }

  // The case that arises by itself: a charge is first delivered while it is
  // pending, or after an attempt that failed, and again when it succeeded.
  // Both have the same key, so the success is taken for a duplicate, and the
  // charge never gets a row.
  lemma UnsuccessfulThenSuccessful(ref: string, status: string, hash: string, hash2: string, part: Part)
    requires Strip(ref) != "" && FlutterwaveStatus(Lower(status)) != Some(Settled)
    ensures var a := Arrival("flutterwave", "charge.completed", Charge(ref, status), hash);
      var b := Arrival("flutterwave", "charge.completed", Charge(ref, "successful"), hash2);
      var s := Run(TwoDeliveries(a, b, part));
      && Recordable(b) && 2 in s.requests && s.requests[2] == Request(b, Answered(false))
      && s.site.tables.silver == map[] && s.site.deadLetters == []
  {
    hide Strip, Run, KeyOf, Skipped, Recordable, StorablePsp, Lower;
    var a := Arrival("flutterwave", "charge.completed", Charge(ref, status), hash);
    var b := Arrival("flutterwave", "charge.completed", Charge(ref, "successful"), hash2);
    var key := BuildKey("flutterwave", ref, "charge.completed");
    ChargeKey(ref, status, hash);
    ChargeKey(ref, "successful", hash2);
    UnsuccessfulIsSkipped(ref, status, hash, key);
    SuccessIsRecordable(ref, hash2);
    SkippedFirst(a, b, part, key);
  }

  lemma ChargeKey(ref: string, status: string, hash: string)
    requires Strip(ref) != ""
    ensures KeyOf(Arrival("flutterwave", "charge.completed", Charge(ref, status), hash))
            == Some(BuildKey("flutterwave", ref, "charge.completed"))
    ensures StorablePsp("flutterwave")
  {
    StripOfNothing();
    hide Strip, BuildKey;
  }

  lemma UnsuccessfulIsSkipped(ref: string, status: string, hash: string, key: string)
    requires FlutterwaveStatus(Lower(status)) != Some(Settled)
    ensures Skipped(MessageOf(Arrival("flutterwave", "charge.completed", Charge(ref, status), hash), key))
  {
    hide Classify, Charge, FlutterwaveStatus, Lower;
    ClassifyCharge(ref, status);
  }

  lemma SuccessIsRecordable(ref: string, hash: string)
    requires Strip(ref) != ""
    ensures Recordable(Arrival("flutterwave", "charge.completed", Charge(ref, "successful"), hash))
  {
    hide Strip, Classify, RawRef;
    SuccessIsAccepted(ref);
    ChargeRef(ref, "successful");
  }

  lemma SuccessIsAccepted(ref: string)
    ensures Classify("flutterwave", "charge.completed", Charge(ref, "successful")).Accept?
  {
    hide Classify, Charge, FlutterwaveStatus;
    ClassifyCharge(ref, "successful");
    StatusIsRead();
  }

  lemma StatusIsRead()
    ensures FlutterwaveStatus(Lower("successful")) == Some(Settled)
  {
    LowerStays("successful");
    hide Lower;
  }

  lemma ClassifyCharge(ref: string, status: string)
    ensures Classify("flutterwave", "charge.completed", Charge(ref, status)) ==
            if FlutterwaveStatus(Lower(status)) == Some(Settled) then Accept(Credit, Settled) else Skip
  {
    hide Lower, FlutterwaveStatus;
  }

  lemma ChargeRef(ref: string, status: string)
    requires Strip(ref) != ""
    ensures RawRef("flutterwave", Charge(ref, status)) == ref
  {
    StripOfNothing();
    hide Strip;
  }

  lemma LowerStays(s: string)
    requires forall i :: 0 <= i < |s| ==> !('A' <= s[i] <= 'Z')
    ensures Lower(s) == s
  {
  }

  // The other case: an unrecognised event type that spells out the tail of
  // another event's reference.
  function ChargeOf(ref: string, event: string): Payload {
    map["event" := Text(event), "data" := Object("", map["reference" := Text(ref)])]
  }

  lemma UnrecognisedTypeFirst(r: string, x: string, hash: string, hash2: string, part: Part)
    requires Plain(r) && Plain(x)
    ensures var a := Arrival("paystack", x + ":charge.success", ChargeOf(r, x + ":charge.success"), hash);
      var b := Arrival("paystack", "charge.success", ChargeOf(r + ":" + x, "charge.success"), hash2);
      var s := Run(TwoDeliveries(a, b, part));
      && Recordable(b) && 2 in s.requests && s.requests[2] == Request(b, Answered(false))
      && s.site.tables.silver == map[] && s.site.deadLetters == []
  {
    hide Strip, Run, KeyOf, Skipped, Recordable, StorablePsp, BuildKey, Plain, Classify, Norm;
    VocabularyIsPlain();
    var type_ := x + ":charge.success";
    assert type_ == x + ":" + "charge.success";
    UnrecognisedTypeCollides("paystack", r, x, "charge.success", ChargeOf(r, type_));
    var a := Arrival("paystack", type_, ChargeOf(r, type_), hash);
    var b := Arrival("paystack", "charge.success", ChargeOf(r + ":" + x, "charge.success"), hash2);
    var key := BuildKey("paystack", r, type_);
    PlainIsNotEmpty(r);
    ChargeOfKey(r, type_, hash);
    ChargeOfKey(r + ":" + x, "charge.success", hash2);
    ChargeOfSkipped(r, type_, hash, key);
    PlainJoinIsNormal(r, x);
    ChargeOfRecordable(r + ":" + x, hash2);
    SkippedFirst(a, b, part, key);
  }

  lemma PlainIsNotEmpty(r: string)
    requires Plain(r)
    ensures r != ""
  {
  }

  lemma ChargeOfKey(ref: string, event: string, hash: string)
    requires ref != ""
    ensures KeyOf(Arrival("paystack", event, ChargeOf(ref, event), hash)) == Some(BuildKey("paystack", ref, event))
    ensures StorablePsp("paystack")
  {
    hide BuildKey;
  }

  lemma ChargeOfSkipped(ref: string, event: string, hash: string, key: string)
    requires Classify("paystack", event, ChargeOf(ref, event)) == Skip
    ensures Skipped(MessageOf(Arrival("paystack", event, ChargeOf(ref, event), hash), key))
  {
  }

  lemma ChargeOfRecordable(ref: string, hash: string)
    requires ref != "" && Strip(ref) == ref
    ensures Recordable(Arrival("paystack", "charge.success", ChargeOf(ref, "charge.success"), hash))
  {
    hide Strip;
  }
}
