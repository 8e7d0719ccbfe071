// The consumer worker: poll one message, handle or dead-letter it, then
// commit exactly that offset or rewind to it.
module Worker {
  import opened Common
  import opened Keys
  import opened Lake

  const MAX_BACKOFF_SECONDS := 60
  const MAX_TRANSIENT_ATTEMPTS := 5

  datatype DeadLetter = DeadLetter(pos: Pos, entry: Entry)

  // Result of publishing to the dead-letter topic: acknowledged, lost, or
  // stored by the broker although the publish reported a failure.
  datatype Park = Acked | Lost | StoredUnacked

  // Everything the loop reads and writes: its own memory, the consumer
  // group's offsets, the tables and the dead-letter topic.
  datatype Site = Site(
    position: map<Part, nat>, attempts: map<Pos, nat>, backoff: nat, processed: nat, failed: nat,
    committed: map<Part, nat>, tables: Tables, deadLetters: seq<DeadLetter>)

  function At(m: map<Part, nat>, p: Part): nat { if p in m then m[p] else 0 }

  function AttemptsAt(m: map<Pos, nat>, p: Pos): nat { if p in m then m[p] else 0 }

  // A fresh process reads from the committed offsets.
  function Restart(s: Site): Site {
    s.(position := s.committed, attempts := map[], backoff := 1, processed := 0, failed := 0)
  }

  function Fetch(s: Site, part: Part): Site {
    s.(position := s.position[part := At(s.position, part) + 1])
  }

  // What remains to be done with a fetched message.
  datatype Todo = Settle(handled: bool) | ParkIt

  function Handle(s: Site, pos: Pos, e: Entry, w: Weather): (Site, Todo) {
    if e.Garbage? then (s, ParkIt)
    else
      var (tables, outcome) := Process(s.tables, pos, e, w);
      var s1 := s.(tables := tables);
      match outcome
      case Finished => (s1.(processed := s.processed + 1), Settle(true))
      case PermanentError => (s1, ParkIt)
      case TransientError =>
        var n := AttemptsAt(s.attempts, pos) + 1;
        (s1.(attempts := s.attempts[pos := n]), if n < MAX_TRANSIENT_ATTEMPTS then Settle(false) else ParkIt)
  }

  function DeadLetterIt(s: Site, pos: Pos, e: Entry, park: Park): (Site, bool) {
    match park
    case Acked => (s.(deadLetters := s.deadLetters + [DeadLetter(pos, e)], failed := s.failed + 1), true)
    case Lost => (s, false)
    case StoredUnacked => (s.(deadLetters := s.deadLetters + [DeadLetter(pos, e)]), false)
  }

  function SettleAt(s: Site, pos: Pos, handled: bool): Site {
    if handled then
      s.(committed := s.committed[pos.part := pos.offset + 1], attempts := s.attempts - {pos}, backoff := 1)
    else
      s.(position := s.position[pos.part := pos.offset], backoff := Min(s.backoff * 2, MAX_BACKOFF_SECONDS))
  }

  // One iteration of the loop in which the partition had `entry` at its
  // current position.
  datatype Turn = Turn(part: Part, entry: Entry, weather: Weather, park: Park)

  function PosOf(s: Site, t: Turn): Pos { Pos(t.part, At(s.position, t.part)) }

  function AfterHandle(s: Site, t: Turn): (Site, Todo) {
    Handle(Fetch(s, t.part), PosOf(s, t), t.entry, t.weather)
  }

  function IsHandled(s: Site, t: Turn): bool {
    var (s1, next) := AfterHandle(s, t);
    if next.Settle? then next.handled else t.park.Acked?
  }

  function ParkFails(s: Site, t: Turn): bool {
    AfterHandle(s, t).1.ParkIt? && !t.park.Acked?
  }

  function Take(s: Site, t: Turn): Site {
    var (s1, next) := AfterHandle(s, t);
    var s2 := if next.ParkIt? then DeadLetterIt(s1, PosOf(s, t), t.entry, t.park).0 else s1;
    SettleAt(s2, PosOf(s, t), IsHandled(s, t))
  }

  function TakeAll(s: Site, turns: seq<Turn>): Site {
    if turns == [] then s else Take(TakeAll(s, turns[..|turns| - 1]), turns[|turns| - 1])
  }

  // ---- the worker as the code writes it ------------------------------------

  class DeadLetterTopic {
    var letters: seq<DeadLetter>

    constructor ()
      ensures letters == []
    {
      letters := [];
    }

    method Publish(l: DeadLetter, park: Park) returns (acked: bool)
      modifies this
      ensures acked <==> park.Acked?
      ensures letters == if park.Lost? then old(letters) else old(letters) + [l]
    {
      if !park.Lost? {
        letters := letters + [l];
      }
      acked := park.Acked?;
    }
  }

  class ConsumerWorker {
    var position: map<Part, nat>
    var attempts: map<Pos, nat>
    var backoff: nat
    var processed: nat
    var failed: nat
    var committed: map<Part, nat>
    const flow: TransformFlow
    const topic: DeadLetterTopic

    function View(): Site
      reads this, flow, topic
    {
      Site(position, attempts, backoff, processed, failed, committed, flow.View(), topic.letters)
    }

    constructor (committed: map<Part, nat>, flow: TransformFlow, topic: DeadLetterTopic)
      ensures this.flow == flow && this.topic == topic
      ensures View() == Restart(Site(map[], map[], 0, 0, 0, committed, flow.View(), topic.letters))
    {
      this.flow, this.topic := flow, topic;
      this.committed, this.position := committed, committed;
      attempts, backoff, processed, failed := map[], 1, 0, 0;
    }

    method PublishDeadLetter(pos: Pos, e: Entry, park: Park) returns (ok: bool)
      modifies this, topic
      ensures (View(), ok) == DeadLetterIt(old(View()), pos, e, park)
    {
      ok := topic.Publish(DeadLetter(pos, e), park);
      if ok {
        failed := failed + 1;
      }
    }

    // `_handle`: true when the offset may be committed.
    method HandleMessage(pos: Pos, e: Entry, w: Weather, park: Park) returns (handled: bool)
      modifies this, flow, topic
      ensures var (s1, next) := Handle(old(View()), pos, e, w);
              (View(), handled) == if next.ParkIt? then DeadLetterIt(s1, pos, e, park) else (s1, next.handled)
    {
      hide Process, DeadLetterIt;
      if e.Garbage? {
        handled := PublishDeadLetter(pos, e, park);
        return;
      }
      var outcome := flow.ProcessKafkaMessage(pos, e, w);
      match outcome {
        case PermanentError =>
          handled := PublishDeadLetter(pos, e, park);
        case TransientError =>
          var n := (if pos in attempts then attempts[pos] else 0) + 1;
          attempts := attempts[pos := n];
          if n < MAX_TRANSIENT_ATTEMPTS {
            handled := false;
          } else {
            handled := PublishDeadLetter(pos, e, park);
          }
        case Finished =>
          processed := processed + 1;
          handled := true;
      }
    }

    // One pass through the loop body of `start`.
    method Iterate(t: Turn)
      modifies this, flow, topic
      ensures View() == Take(old(View()), t)
    {
      var offset := if t.part in position then position[t.part] else 0;
      position := position[t.part := offset + 1];
      var pos := Pos(t.part, offset);
      ghost var fetched := View();
      assert fetched == Fetch(old(View()), t.part);
      var handled := HandleMessage(pos, t.entry, t.weather, t.park);
      assert handled == IsHandled(old(View()), t);
      if handled {
        committed := committed[t.part := offset + 1];
        attempts := attempts - {pos};
        backoff := 1;
      } else {
        position := position[t.part := offset];
        backoff := if backoff * 2 < MAX_BACKOFF_SECONDS then backoff * 2 else MAX_BACKOFF_SECONDS;
      }
    }

    // `start`: the loop over the polled messages, until shutdown.
    method Start(turns: seq<Turn>)
      modifies this, flow, topic
      ensures View() == TakeAll(old(View()), turns)
    {
      hide Take;
      var i := 0;
      while i < |turns|
        invariant 0 <= i <= |turns|
        invariant View() == TakeAll(old(View()), turns[..i])
      {
        Iterate(turns[i]);
        assert turns[..i + 1][..i] == turns[..i];
        i := i + 1;
      }
      assert turns[..i] == turns;
    }
  }

  // ---- progress -------------------------------------------------------------

  // How often `pos` was rewound to, and how often its dead-letter publish
  // failed, while one process took these turns.
  function Rewinds(s: Site, turns: seq<Turn>, pos: Pos): nat {
    if turns == [] then 0
    else
      var (init, last) := (turns[..|turns| - 1], turns[|turns| - 1]);
      var mid := TakeAll(s, init);
      Rewinds(s, init, pos) + if PosOf(mid, last) == pos && !IsHandled(mid, last) then 1 else 0
  }

  function FailedParks(s: Site, turns: seq<Turn>, pos: Pos): nat {
    if turns == [] then 0
    else
      var (init, last) := (turns[..|turns| - 1], turns[|turns| - 1]);
      var mid := TakeAll(s, init);
      FailedParks(s, init, pos) + if PosOf(mid, last) == pos && ParkFails(mid, last) then 1 else 0
  }

  // The loop-head invariant of one process.
  ghost predicate LoopHead(s: Site) {
    && 1 <= s.backoff <= MAX_BACKOFF_SECONDS
    && (forall p :: p in s.attempts ==> p.offset == At(s.position, p.part) && s.attempts[p] >= 1)
    && (forall part :: part in s.position || part in s.committed ==> At(s.position, part) == At(s.committed, part))
  }

  lemma RestartLoopHead(s: Site)
    ensures LoopHead(Restart(s))
  {
  }

  lemma HandleShape(s: Site, pos: Pos, e: Entry, w: Weather)
    ensures var (s1, next) := Handle(s, pos, e, w);
      && s1.position == s.position && s1.committed == s.committed && s1.backoff == s.backoff
      && s1.deadLetters == s.deadLetters
      && (s1.attempts == s.attempts || s1.attempts == s.attempts[pos := AttemptsAt(s.attempts, pos) + 1])
  {
    hide Process;
  }

  lemma TakeShape(s: Site, t: Turn)
    ensures var (now, pos) := (Take(s, t), PosOf(s, t));
      && (forall p :: p in now.attempts && p != pos ==> p in s.attempts && now.attempts[p] == s.attempts[p])
      && (pos in now.attempts ==> !IsHandled(s, t) && (now.attempts[pos] >= 1 || now.attempts == s.attempts))
      && now.backoff == (if IsHandled(s, t) then 1 else Min(s.backoff * 2, MAX_BACKOFF_SECONDS))
      && (forall p :: At(now.position, p) ==
            if p == t.part && IsHandled(s, t) then pos.offset + 1 else At(s.position, p))
      && (forall p :: At(now.committed, p) ==
            if p == t.part && IsHandled(s, t) then pos.offset + 1 else At(s.committed, p))
  {
    HandleShape(Fetch(s, t.part), PosOf(s, t), t.entry, t.weather);
    hide Handle;
  }

  lemma TakeLoopHead(s: Site, t: Turn)
    requires LoopHead(s)
    ensures LoopHead(Take(s, t))
  {
    TakeShape(s, t);
    hide Process, Take, IsHandled;
    AllInStep(s);
    forall part
      ensures At(Take(s, t).position, part) == At(Take(s, t).committed, part)
    {
    }
  }

  lemma AllInStep(s: Site)
    requires LoopHead(s)
    ensures forall part :: At(s.position, part) == At(s.committed, part)
  {
  }

  // At every loop head: the backoff stays within [1, 60] seconds, retry
  // counters exist only for the message each partition currently stands at
  // (so at most one per partition), and reading resumes exactly at the
  // committed offset.
  lemma {:induction false} LoopHeadAlways(s: Site, turns: seq<Turn>)
    ensures LoopHead(TakeAll(Restart(s), turns))
    ensures forall p, q ::
              p in TakeAll(Restart(s), turns).attempts && q in TakeAll(Restart(s), turns).attempts && p.part == q.part
              ==> p == q
  {
    if turns == [] {
      RestartLoopHead(s);
    } else {
      LoopHeadAlways(s, turns[..|turns| - 1]);
      TakeLoopHead(TakeAll(Restart(s), turns[..|turns| - 1]), turns[|turns| - 1]);
    }
  }

  // The exact account of rewinds of the message a partition stands at: one
  // per transient failure short of the limit, one per failed dead-letter
  // publish, and none for messages not reached yet.
  ghost predicate Account(s: Site, turns: seq<Turn>, pos: Pos) {
    var now := TakeAll(s, turns);
    var (r, f) := (Rewinds(s, turns, pos), FailedParks(s, turns, pos));
    && (pos.offset > At(now.position, pos.part) ==> r == 0 && f == 0)
    && (pos.offset == At(now.position, pos.part) ==>
          r == Min(AttemptsAt(now.attempts, pos), MAX_TRANSIENT_ATTEMPTS - 1) + f)
    && r <= MAX_TRANSIENT_ATTEMPTS - 1 + f
  }

  lemma {:induction false} AccountAlways(s: Site, turns: seq<Turn>, pos: Pos)
    ensures Account(Restart(s), turns, pos)
  {
    if turns != [] {
      var init := turns[..|turns| - 1];
      AccountAlways(s, init, pos);
      LoopHeadAlways(s, init);
      AccountStep(Restart(s), turns, pos);
    }
  }

  lemma AccountStep(s: Site, turns: seq<Turn>, pos: Pos)
    requires turns != []
    requires LoopHead(TakeAll(s, turns[..|turns| - 1]))
    requires Account(s, turns[..|turns| - 1], pos)
    ensures Account(s, turns, pos)
  {
    hide Process;
    var (init, last) := (turns[..|turns| - 1], turns[|turns| - 1]);
    var mid := TakeAll(s, init);
    var now := Take(mid, last);
    assert now == TakeAll(s, turns);
    TakeFacts(mid, last, pos);
  }

  // How the handler moves the retry counter of its message.
  lemma HandleCounts(s: Site, pos: Pos, e: Entry, w: Weather)
    ensures var (s1, next) := Handle(s, pos, e, w);
      var (n, n1) := (AttemptsAt(s.attempts, pos), AttemptsAt(s1.attempts, pos));
      && (next == Settle(false) ==> n1 == n + 1 < MAX_TRANSIENT_ATTEMPTS)
      && (next == Settle(true) ==> n1 == n)
      && (next == ParkIt ==> Min(n1, MAX_TRANSIENT_ATTEMPTS - 1) == Min(n, MAX_TRANSIENT_ATTEMPTS - 1))
  {
    hide Process;
  }

  // Settling an unhandled message leaves the counters alone.
  lemma UnhandledCounts(s: Site, t: Turn)
    requires !IsHandled(s, t)
    ensures Take(s, t).attempts == AfterHandle(s, t).0.attempts
  {
    hide Handle;
  }

  lemma TakeFacts(s: Site, t: Turn, pos: Pos)
    requires LoopHead(s)
    ensures var now := Take(s, t);
      if PosOf(s, t) == pos then
        if IsHandled(s, t) then At(now.position, pos.part) == pos.offset + 1 && !ParkFails(s, t)
        else
          && At(now.position, pos.part) == pos.offset
          && Min(AttemptsAt(now.attempts, pos), MAX_TRANSIENT_ATTEMPTS - 1) + (if ParkFails(s, t) then 1 else 0)
             == Min(AttemptsAt(s.attempts, pos), MAX_TRANSIENT_ATTEMPTS - 1) + 1
      else
        && At(now.position, pos.part) >= At(s.position, pos.part)
        && (pos.offset >= At(now.position, pos.part) ==>
              AttemptsAt(now.attempts, pos) == AttemptsAt(s.attempts, pos))
        && (pos.part != t.part ==> At(now.position, pos.part) == At(s.position, pos.part))
  {
    hide Handle, Take;
    TakeShape(s, t);
    if PosOf(s, t) == pos {
      HandleCounts(Fetch(s, t.part), pos, t.entry, t.weather);
      if !IsHandled(s, t) { UnhandledCounts(s, t); }
    } else {
      OthersKeepAttempts(s, t, pos);
    }
  }

  lemma OthersKeepAttempts(s: Site, t: Turn, pos: Pos)
    requires pos != PosOf(s, t)
    ensures AttemptsAt(Take(s, t).attempts, pos) == AttemptsAt(s.attempts, pos)
  {
    HandleShape(Fetch(s, t.part), PosOf(s, t), t.entry, t.weather);
    hide Handle;
  }

  // Within one process, an offset is rewound to at most four times plus once
  // for every failed publish to the dead-letter topic.
  lemma RewindBound(s: Site, turns: seq<Turn>, pos: Pos)
    ensures Rewinds(Restart(s), turns, pos) <= MAX_TRANSIENT_ATTEMPTS - 1 + FailedParks(Restart(s), turns, pos)
  {
    AccountAlways(s, turns, pos);
  }

  // The turns spent on one partition, and those of them that ended in a
  // failed dead-letter publish.
  function TurnsOn(turns: seq<Turn>, part: Part): nat {
    if turns == [] then 0
    else TurnsOn(turns[..|turns| - 1], part) + if turns[|turns| - 1].part == part then 1 else 0
  }

  function FailedParksOn(s: Site, turns: seq<Turn>, part: Part): nat {
    if turns == [] then 0
    else
      var (init, last) := (turns[..|turns| - 1], turns[|turns| - 1]);
      FailedParksOn(s, init, part) + if last.part == part && ParkFails(TakeAll(s, init), last) then 1 else 0
  }

  ghost predicate Progress(s: Site, turns: seq<Turn>, part: Part) {
    var now := TakeAll(s, turns);
    var head := Pos(part, At(now.position, part));
    TurnsOn(turns, part) <= MAX_TRANSIENT_ATTEMPTS * (At(now.position, part) - At(s.position, part))
                            + Min(AttemptsAt(now.attempts, head), MAX_TRANSIENT_ATTEMPTS - 1)
                            + FailedParksOn(s, turns, part)
  }

  lemma ProgressStep(s: Site, turns: seq<Turn>, part: Part)
    requires turns != [] && LoopHead(TakeAll(s, turns[..|turns| - 1])) && Progress(s, turns[..|turns| - 1], part)
    ensures Progress(s, turns, part)
  {
    hide Process, Take, ParkFails, IsHandled, LoopHead;
    var (init, last) := (turns[..|turns| - 1], turns[|turns| - 1]);
    var mid := TakeAll(s, init);
    TakeFacts(mid, last, Pos(part, At(mid.position, part)));
  }

  lemma {:induction false} ProgressAlways(s: Site, turns: seq<Turn>, part: Part)
    ensures Progress(Restart(s), turns, part)
  {
    if turns != [] {
      var init := turns[..|turns| - 1];
      ProgressAlways(s, init, part);
      LoopHeadAlways(s, init);
      ProgressStep(Restart(s), turns, part);
    }
  }

  // The worker makes progress: of the turns it spends on a partition, all but
  // four and but the failed dead-letter publishes are paid for by committed
  // offsets, at five turns an offset.
  lemma CommittedProgress(s: Site, turns: seq<Turn>, part: Part)
    ensures var now := TakeAll(Restart(s), turns);
      TurnsOn(turns, part) <= MAX_TRANSIENT_ATTEMPTS * (At(now.committed, part) - At(s.committed, part))
                              + (MAX_TRANSIENT_ATTEMPTS - 1) + FailedParksOn(Restart(s), turns, part)
  {
    hide TakeAll;
    ProgressAlways(s, turns, part);
    LoopHeadAlways(s, turns);
    AllInStep(TakeAll(Restart(s), turns));
  }

  // ---- the retry policy --------------------------------------------------------

  // What became of a message on one turn, before the worker decides.
  datatype Said = Undecodable | Reported(outcome: Outcome)

  function SaidOf(s: Site, t: Turn): Said {
    if t.entry.Garbage? then Undecodable else Reported(Process(s.tables, PosOf(s, t), t.entry, t.weather).1)
  }

  // How many turns have reported a transient error for `pos`.
  function TransientsOf(s: Site, turns: seq<Turn>, pos: Pos): nat {
    if turns == [] then 0
    else
      var (init, last) := (turns[..|turns| - 1], turns[|turns| - 1]);
      var mid := TakeAll(s, init);
      TransientsOf(s, init, pos)
        + if PosOf(mid, last) == pos && SaidOf(mid, last) == Reported(TransientError) then 1 else 0
  }

  // Hopeless messages go to the dead-letter topic: at once when nothing can
  // help, and otherwise on the fifth transient error.
  predicate GivesUp(said: Said, earlier: nat) {
    said == Undecodable || said == Reported(PermanentError) || (said == Reported(TransientError) && earlier >= 4)
  }

  lemma HandleBySaid(s: Site, pos: Pos, e: Entry, w: Weather)
    ensures var (s1, next) := Handle(s, pos, e, w);
      var said := if e.Garbage? then Undecodable else Reported(Process(s.tables, pos, e, w).1);
      var n := AttemptsAt(s.attempts, pos);
      && next == (if said == Reported(Finished) then Settle(true)
                  else if GivesUp(said, n) then ParkIt else Settle(false))
      && AttemptsAt(s1.attempts, pos) == n + (if said == Reported(TransientError) then 1 else 0)
      && s1.processed == s.processed + (if said == Reported(Finished) then 1 else 0) && s1.failed == s.failed
      && s1.tables == if e.Garbage? then s.tables else Process(s.tables, pos, e, w).0
  {
    hide Process;
  }

  predicate Settles(said: Said, earlier: nat, park: Park) {
    said == Reported(Finished) || (GivesUp(said, earlier) && park.Acked?)
  }

  // The policy, for a site whose retry counter of the message in hand is `n`.
  ghost predicate Follows(mid: Site, t: Turn, n: nat, now: Site) {
    var (pos, said) := (PosOf(mid, t), SaidOf(mid, t));
    var settled := Settles(said, n, t.park);
    && now.committed == (if settled then mid.committed[t.part := pos.offset + 1] else mid.committed)
    && At(now.position, t.part) == pos.offset + (if settled then 1 else 0)
    && now.deadLetters == mid.deadLetters
         + (if GivesUp(said, n) && !t.park.Lost? then [DeadLetter(pos, t.entry)] else [])
    && AttemptsAt(now.attempts, pos) == (if settled then 0 else if said == Reported(TransientError) then n + 1 else n)
    && now.backoff == (if settled then 1 else Min(mid.backoff * 2, 60))
    && now.processed == mid.processed + (if said == Reported(Finished) then 1 else 0)
    && now.failed == mid.failed + (if GivesUp(said, n) && t.park.Acked? then 1 else 0)
    && now.tables == if t.entry.Garbage? then mid.tables else Process(mid.tables, pos, t.entry, t.weather).0
  }

  lemma TakeFollows(s: Site, t: Turn)
    ensures Follows(s, t, AttemptsAt(s.attempts, PosOf(s, t)), Take(s, t))
  {
    hide Handle, Process;
    HandleShape(Fetch(s, t.part), PosOf(s, t), t.entry, t.weather);
    HandleBySaid(Fetch(s, t.part), PosOf(s, t), t.entry, t.weather);
  }

  lemma {:induction false} TransientsAreCounted(s: Site, turns: seq<Turn>, pos: Pos)
    ensures var now := TakeAll(Restart(s), turns);
      && (pos.offset == At(now.position, pos.part) ==>
            TransientsOf(Restart(s), turns, pos) == AttemptsAt(now.attempts, pos))
      && (pos.offset > At(now.position, pos.part) ==>
            TransientsOf(Restart(s), turns, pos) == 0 == AttemptsAt(now.attempts, pos))
  {
    hide Take, Process, SaidOf;
    if turns != [] {
      var (init, last) := (turns[..|turns| - 1], turns[|turns| - 1]);
      TransientsAreCounted(s, init, pos);
      LoopHeadAlways(s, init);
      var mid := TakeAll(Restart(s), init);
      TakeFacts(mid, last, pos);
      TakeFollows(mid, last);
    }
  }

  // The retry policy over any turns of one process. A transient error is
  // retried, with nothing committed and nothing dead-lettered, until it is
  // the fifth for its message; undecodable messages, permanent errors and the
  // fifth transient error go to the dead-letter topic, and are committed when
  // that is acknowledged; everything else that is handled is committed.
  lemma RetryPolicy(s: Site, turns: seq<Turn>, t: Turn)
    ensures var mid := TakeAll(Restart(s), turns);
      Follows(mid, t, TransientsOf(Restart(s), turns, PosOf(mid, t)), TakeAll(Restart(s), turns + [t]))
  {
    hide Take, Process, SaidOf, Follows;
    var mid := TakeAll(Restart(s), turns);
    assert (turns + [t])[..|turns|] == turns;
    TransientsAreCounted(s, turns, PosOf(mid, t));
    TakeFollows(mid, t);
  }

  // The turn that gave up on a dead letter's message.
  ghost predicate GaveUp(s: Site, turns: seq<Turn>, n: nat, d: DeadLetter)
    requires n < |turns|
  {
    var mid := TakeAll(s, turns[..n]);
    && d == DeadLetter(PosOf(mid, turns[n]), turns[n].entry)
    && GivesUp(SaidOf(mid, turns[n]), TransientsOf(s, turns[..n], d.pos))
  }

  lemma GaveUpBefore(s: Site, init: seq<Turn>, turns: seq<Turn>, n: nat, d: DeadLetter)
    requires n < |init| <= |turns| && init == turns[..|init|] && GaveUp(s, init, n, d)
    ensures GaveUp(s, turns, n, d)
  {
    hide TakeAll, TransientsOf, SaidOf, GivesUp;
    assert init[..n] == turns[..n];
  }

  // One turn dead-letters nothing but the message it gives up on.
  lemma TakeGivesUp(s: Site, t: Turn, d: DeadLetter)
    requires d in Take(s, t).deadLetters && d !in s.deadLetters
    ensures d == DeadLetter(PosOf(s, t), t.entry) && GivesUp(SaidOf(s, t), AttemptsAt(s.attempts, PosOf(s, t)))
  {
    hide Take, Process, SaidOf, GivesUp;
    TakeFollows(s, t);
  }

  lemma LastGaveUp(s: Site, init: seq<Turn>, last: Turn, d: DeadLetter)
    requires d in Take(TakeAll(Restart(s), init), last).deadLetters && d !in TakeAll(Restart(s), init).deadLetters
    ensures GaveUp(Restart(s), init + [last], |init|, d)
  {
    hide TakeAll, TransientsOf, SaidOf, GivesUp, Take, Restart;
    TakeGivesUp(TakeAll(Restart(s), init), last, d);
    TransientsAreCounted(s, init, d.pos);
    assert (init + [last])[..|init|] == init;
  }

  // Nothing else is ever dead-lettered.
  lemma {:induction false} DeadLettersHaveCauses(s: Site, turns: seq<Turn>, d: DeadLetter)
    requires d in TakeAll(Restart(s), turns).deadLetters && d !in s.deadLetters
    ensures exists n :: 0 <= n < |turns| && GaveUp(Restart(s), turns, n, d)
  {
    hide Take, GaveUp;
    if turns != [] {
      var (init, last) := (turns[..|turns| - 1], turns[|turns| - 1]);
      if d in TakeAll(Restart(s), init).deadLetters {
        DeadLettersHaveCauses(s, init, d);
        var n :| 0 <= n < |init| && GaveUp(Restart(s), init, n, d);
        GaveUpBefore(Restart(s), init, turns, n, d);
      } else {
        LastGaveUp(s, init, last, d);
        assert init + [last] == turns;
      }
    }
  }
}
