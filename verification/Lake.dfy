// Bronze and Silver: what one Kafka message does to the two tables.
module Lake {
  import opened Common
  import opened Keys

  datatype Part = Part(topic: string, index: nat)
  datatype Pos = Pos(part: Part, offset: nat)

  datatype Message = Message(psp: string, eventType: string, payload: Payload, contentHash: string, key: string)

  // A log entry as the consumer decodes it: bytes that are not a JSON object,
  // an object without the required fields (or whose payload is not an
  // object), or an event.
  datatype Entry = Garbage(raw: string) | Malformed(raw: string) | Event(m: Message)

  datatype BronzeRow = BronzeRow(psp: string, contentHash: string)
  datatype SilverRow = SilverRow(bronze: Pos, row: Normalised)

  // `offered` records every row handed to the Silver INSERT, in order,
  // including the ones its unique key turned away.
  datatype Tables = Tables(
    bronze: map<Pos, BronzeRow>, silver: map<string, SilverRow>, offered: seq<SilverRow>)

  // What the world does to one processing attempt. The `After` cases are
  // commits whose acknowledgement was lost: the row is there, the caller sees
  // an error. `SilverRejected` stands for the permanent errors of the field
  // checks that are not modelled (amount, timestamp, FX rate, schema).
  datatype Weather = Calm | BeforeBronze | AfterBronze | SilverRejected | BeforeSilver | AfterSilver

  datatype Outcome = Finished | PermanentError | TransientError

  // `psp_name` is an enum column: Bronze cannot store any other name.
  predicate StorablePsp(psp: string) {
    psp == "paystack" || psp == "flutterwave" || psp == "mpesa" || psp == "moniepoint"
  }

  function BronzeOf(m: Message): BronzeRow { BronzeRow(m.psp, m.contentHash) }

  function WriteBronze(t: Tables, pos: Pos, m: Message): Tables {
    if pos in t.bronze then t else t.(bronze := t.bronze[pos := BronzeOf(m)])
  }

  function WriteSilver(t: Tables, r: SilverRow): Tables
    requires r.row.Row?
  {
    var t' := t.(offered := t.offered + [r]);
    if r.row.key in t.silver then t' else t'.(silver := t.silver[r.row.key := r])
  }

  // The row an accepted message stands for.
  function RowOf(m: Message): Normalised {
    if m.psp == "paystack" || m.psp == "flutterwave" then Normalise(m.psp, m.payload) else Permanent
  }

  predicate Skipped(m: Message) { Classify(m.psp, m.eventType, m.payload).Skip? }

  // `process_kafka_message`.
  function Process(t: Tables, pos: Pos, e: Entry, w: Weather): (Tables, Outcome)
    requires !e.Garbage?
  {
    if e.Malformed? then (t, PermanentError)
    else if w.BeforeBronze? || !StorablePsp(e.m.psp) then (t, TransientError)
    else
      var t1 := WriteBronze(t, pos, e.m);
      if w.AfterBronze? then (t1, TransientError)
      else if Skipped(e.m) then (t1, Finished)
      else if w.SilverRejected? then (t1, PermanentError)
      else if w.BeforeSilver? then (t1, TransientError)
      else
        match RowOf(e.m)
        case Permanent => (t1, PermanentError)
        case Transient => (t1, TransientError)
        case Row(_, _, _, _, _, _) =>
          (WriteSilver(t1, SilverRow(pos, RowOf(e.m))), if w.AfterSilver? then TransientError else Finished)
  }

  // The same code as it runs: two tables updated in place.
  class TransformFlow {
    var bronze: map<Pos, BronzeRow>
    var silver: map<string, SilverRow>
    var offered: seq<SilverRow>

    function View(): Tables
      reads this
    {
      Tables(bronze, silver, offered)
    }

    constructor ()
      ensures View() == Tables(map[], map[], [])
    {
      bronze, silver, offered := map[], map[], [];
    }

    // INSERT ... ON CONFLICT DO NOTHING, then re-read on conflict. A replay
    // gets the row of the first write.
    method WriteBronzeParquet(pos: Pos, m: Message) returns (row: BronzeRow)
      modifies this
      ensures View() == WriteBronze(old(View()), pos, m)
      ensures pos in bronze && row == bronze[pos]
      ensures pos in old(bronze) ==> row == old(bronze[pos])
    {
      if pos !in bronze {
        bronze := bronze[pos := BronzeRow(m.psp, m.contentHash)];
      }
      row := bronze[pos];
    }

    // Returns the row that owns the key, and whether it is the new one.
    method NormaliseToSilver(r: SilverRow) returns (owner: SilverRow, isNew: bool)
      requires r.row.Row?
      modifies this
      ensures View() == WriteSilver(old(View()), r)
      ensures r.row.key in silver && owner == silver[r.row.key]
      ensures isNew <==> r.row.key !in old(silver)
      ensures !isNew ==> silver == old(silver)
    {
      offered := offered + [r];
      isNew := r.row.key !in silver;
      if isNew {
        silver := silver[r.row.key := r];
      }
      owner := silver[r.row.key];
    }

    method ProcessKafkaMessage(pos: Pos, e: Entry, w: Weather) returns (outcome: Outcome)
      requires !e.Garbage?
      modifies this
      ensures (View(), outcome) == Process(old(View()), pos, e, w)
    {
      if e.Malformed? {
        return PermanentError;
      }
      if w.BeforeBronze? || !StorablePsp(e.m.psp) {
        return TransientError;
      }
      var _ := WriteBronzeParquet(pos, e.m);
      if w.AfterBronze? {
        return TransientError;
      }
      if Classify(e.m.psp, e.m.eventType, e.m.payload).Skip? {
        return Finished;
      }
      if w.SilverRejected? {
        return PermanentError;
      }
      if w.BeforeSilver? {
        return TransientError;
      }
      var row := RowOf(e.m);
      if row.Permanent? {
        return PermanentError;
      }
      if row.Transient? {
        return TransientError;
      }
      var _, _ := NormaliseToSilver(SilverRow(pos, row));
      outcome := if w.AfterSilver? then TransientError else Finished;
    }
  }

  // ---- Silver as a write-once map ------------------------------------------

  // The reference: the first offer made under a key owns it for ever.
  function FirstOffer(offered: seq<SilverRow>, key: string): (r: Option<SilverRow>)
    ensures r.Some? ==> r.value in offered && r.value.row.Row? && r.value.row.key == key
    ensures r.None? ==> forall o :: o in offered && o.row.Row? ==> o.row.key != key
  {
    if offered == [] then None
    else if offered[0].row.Row? && offered[0].row.key == key then Some(offered[0])
    else FirstOffer(offered[1..], key)
  }

  lemma {:induction false} FirstOfferGrows(offered: seq<SilverRow>, r: SilverRow, key: string)
    ensures FirstOffer(offered + [r], key) ==
            if FirstOffer(offered, key).Some? then FirstOffer(offered, key)
            else if r.row.Row? && r.row.key == key then Some(r)
            else None
  {
    if offered != [] {
      assert (offered + [r])[1..] == offered[1..] + [r];
      FirstOfferGrows(offered[1..], r, key);
    } else {
      assert FirstOffer([r][1..], key).None?;
    }
  }

  // Silver holds the first offer under every key, and nothing else.
  ghost predicate WriteOnce(t: Tables) {
    forall key: string ::
      if key in t.silver then FirstOffer(t.offered, key) == Some(t.silver[key])
      else FirstOffer(t.offered, key).None?
  }

  lemma WriteSilverKeepsWriteOnce(t: Tables, r: SilverRow)
    requires WriteOnce(t) && r.row.Row?
    ensures WriteOnce(WriteSilver(t, r))
  {
    var t' := WriteSilver(t, r);
    forall key: string
      ensures if key in t'.silver then FirstOffer(t'.offered, key) == Some(t'.silver[key])
              else FirstOffer(t'.offered, key).None?
    {
      FirstOfferGrows(t.offered, r, key);
    }
  }

  // What one processing attempt can and cannot do, whatever the weather:
  // tables only grow, an attempt touches its own Bronze row and its own
  // Silver key alone, and a finished attempt has left its mark.
  lemma ProcessEffects(t: Tables, pos: Pos, e: Entry, w: Weather)
    requires !e.Garbage? && WriteOnce(t)
    ensures var (t', outcome) := Process(t, pos, e, w);
      && WriteOnce(t')
      && (forall p :: p in t.bronze ==> p in t'.bronze && t'.bronze[p] == t.bronze[p])
      && (forall k :: k in t.silver ==> k in t'.silver && t'.silver[k] == t.silver[k])
      && (forall p :: p in t'.bronze && p !in t.bronze ==> p == pos && e.Event? && t'.bronze[p] == BronzeOf(e.m))
      && (t'.offered == t.offered
          || (e.Event? && RowOf(e.m).Row? && pos in t'.bronze && !Skipped(e.m)
              && t'.offered == t.offered + [SilverRow(pos, RowOf(e.m))]))
      && (outcome == Finished ==>
            e.Event? && if Skipped(e.m) then pos in t'.bronze
                        else RowOf(e.m).Row? && RowOf(e.m).key in t'.silver && pos in t'.bronze)
  {
    hide RowOf, Skipped, StorablePsp, WriteOnce, FirstOffer;
    if e.Event? {
      WriteBronzeKeepsWriteOnce(t, pos, e.m);
      if RowOf(e.m).Row? {
        WriteSilverKeepsWriteOnce(WriteBronze(t, pos, e.m), SilverRow(pos, RowOf(e.m)));
      }
    }
  }

  lemma WriteBronzeKeepsWriteOnce(t: Tables, pos: Pos, m: Message)
    requires WriteOnce(t)
    ensures WriteOnce(WriteBronze(t, pos, m))
  {
  }

  predicate OfKnownPsp(m: Message) { m.psp in {"paystack", "flutterwave", "mpesa", "moniepoint"} }

  lemma KnownIsStorable(m: Message)
    ensures StorablePsp(m.psp) <==> OfKnownPsp(m)
  {
  }

  // The message reaches the normaliser: Bronze was written and the classifier
  // did not skip it.
  predicate Reaches(m: Message, w: Weather) {
    OfKnownPsp(m) && !w.BeforeBronze? && !w.AfterBronze? && !Skipped(m)
  }

  // When a message is finished, and when its failure is permanent; every
  // other failure is transient. What it leaves behind is its Bronze row as
  // soon as that could be stored, and its Silver row when it got that far.
  lemma OutcomeIff(t: Tables, pos: Pos, e: Entry, w: Weather)
    requires !e.Garbage?
    ensures var (t', outcome) := Process(t, pos, e, w);
      && (outcome == PermanentError <==>
            e.Malformed? || (Reaches(e.m, w) && (w.SilverRejected? || (!w.BeforeSilver? && RowOf(e.m).Permanent?))))
      && (outcome == Finished <==>
            e.Event? && OfKnownPsp(e.m) && if Skipped(e.m) then !w.BeforeBronze? && !w.AfterBronze?
                                                else w.Calm? && RowOf(e.m).Row?)
      && (pos in t'.bronze <==> pos in t.bronze || (e.Event? && OfKnownPsp(e.m) && !w.BeforeBronze?))
      && (forall k :: k in t'.silver && k !in t.silver <==>
            e.Event? && Reaches(e.m, w) && (w.Calm? || w.AfterSilver?) && RowOf(e.m).Row?
            && k == RowOf(e.m).key && k !in t.silver)
  {
    hide RowOf, Skipped, StorablePsp, OfKnownPsp;
    if e.Event? { KnownIsStorable(e.m); }
  }
}
