// Idempotency keys: how ingestion and the Silver normaliser each derive the
// key of one event, and which events become Silver rows at all.
module Keys {
  import opened Common

  // ---- text helpers -------------------------------------------------------

  predicate IsSpace(c: char) {
    var n := c as int;
    || 9 <= n <= 13 || 28 <= n <= 32 || n == 0x85 || n == 0xA0 || n == 0x1680
    || 0x2000 <= n <= 0x200A || n == 0x2028 || n == 0x2029 || n == 0x202F
    || n == 0x205F || n == 0x3000
  }

  function StripLeft(s: string): (r: string)
    ensures |r| <= |s| && r == s[|s| - |r|..]
    ensures r != "" ==> !IsSpace(r[0])
    ensures s != "" && !IsSpace(s[0]) ==> r == s
  {
    if s != "" && IsSpace(s[0]) then StripLeft(s[1..]) else s
  }

  function StripRight(s: string): (r: string)
    ensures r <= s
    ensures r != "" ==> !IsSpace(r[|r| - 1])
    ensures s != "" && !IsSpace(s[|s| - 1]) ==> r == s
  {
    if s != "" && IsSpace(s[|s| - 1]) then StripRight(s[..|s| - 1]) else s
  }

  // `str.strip()`.
  function Strip(s: string): (r: string)
    ensures r != "" ==> !IsSpace(r[0]) && !IsSpace(r[|r| - 1])
  {
    StripRight(StripLeft(s))
  }

  predicate Blank(s: string) { forall i :: 0 <= i < |s| ==> IsSpace(s[i]) }

  lemma StripLeftStep(s: string)
    ensures StripLeft(s) == if s != "" && IsSpace(s[0]) then StripLeft(s[1..]) else s
  {
    hide IsSpace;
  }

  lemma {:induction false} LeftIsBlank(s: string)
    ensures Blank(s[..|s| - |StripLeft(s)|])
  {
    hide IsSpace, StripLeft;
    StripLeftStep(s);
    if s != "" && IsSpace(s[0]) {
      var rest := s[1..];
      LeftIsBlank(rest);
      BlankFirst(s[0], rest[..|rest| - |StripLeft(rest)|]);
      assert s[..|s| - |StripLeft(s)|] == [s[0]] + rest[..|rest| - |StripLeft(rest)|];
    }
  }

  lemma BlankFirst(c: char, s: string)
    requires IsSpace(c) && Blank(s)
    ensures Blank([c] + s)
  {
    hide IsSpace;
  }

  lemma {:induction false} RightOfStrip(s: string) returns (after: string)
    ensures s == StripRight(s) + after && Blank(after)
  {
    hide IsSpace;
    after := [];
    if s != "" && IsSpace(s[|s| - 1]) {
      after := RightOfStrip(s[..|s| - 1]);
      after := after + [s[|s| - 1]];
      assert s == s[..|s| - 1] + [s[|s| - 1]];
    }
  }

  // Stripping takes away exactly the white space around the text.
  lemma StripTakesWhiteSpace(s: string) returns (before: string, after: string)
    ensures s == before + Strip(s) + after && Blank(before) && Blank(after)
    ensures Strip(s) == "" <==> Blank(s)
  {
    hide IsSpace, StripLeft, StripRight;
    LeftIsBlank(s);
    before := s[..|s| - |StripLeft(s)|];
    after := RightOfStrip(StripLeft(s));
    assert s == before + StripLeft(s);
    var r := Strip(s);
    if r != "" {
      assert s[|before|] == r[0];
    } else {
      assert s == before + after;
    }
  }

  lemma StripIdempotent(s: string)
    ensures Strip(Strip(s)) == Strip(s)
  {
    var r := Strip(s);
    if r != "" {
      assert StripLeft(r) == r;
    }
  }

  function LowerChar(c: char): char {
    if 'A' <= c <= 'Z' then (c as int + 32) as char else c
  }

  // `str.lower()` on ASCII letters.
  function Lower(s: string): (r: string)
    ensures |r| == |s|
    ensures forall i :: 0 <= i < |s| ==> r[i] == LowerChar(s[i])
  {
    if s == "" then "" else [LowerChar(s[0])] + Lower(s[1..])
  }

  // A component of a key that names no part of another component.
  predicate ColonFree(s: string) { ':' !in s }

  lemma NormalisedColonFree(s: string)
    requires ColonFree(s)
    ensures ColonFree(Strip(Lower(s)))
  {
    LowerColonFree(s);
    StripColonFree(Lower(s));
  }

  lemma LowerColonFree(s: string)
    requires ColonFree(s)
    ensures ColonFree(Lower(s))
  {
    hide Lower;
    var l := Lower(s);
    assert forall i :: 0 <= i < |l| ==> l[i] != ':';
  }

  lemma StripColonFree(s: string)
    requires ColonFree(s)
    ensures ColonFree(Strip(s))
  {
    hide StripLeft, StripRight, IsSpace;
    var l := StripLeft(s);
    assert l == s[|s| - |l|..];
    assert StripRight(l) <= l;
  }

  // ---- key format ---------------------------------------------------------

  function Norm(s: string): string { Strip(Lower(s)) }

  function BuildKey(psp: string, ref: string, event: string): string {
    Norm(psp) + ":" + Strip(ref) + ":" + Norm(event)
  }

  // Splitting at the first colon is unambiguous when the left part has none.
  lemma FirstColon(a: string, b: string, c: string, d: string)
    requires ColonFree(a) && ColonFree(c)
    requires a + ":" + b == c + ":" + d
    ensures a == c && b == d
  {
    var s := a + ":" + b;
    assert forall i :: 0 <= i < |a| ==> s[i] == a[i];
    assert forall i :: 0 <= i < |c| ==> s[i] == c[i];
    assert s[|a|] == ':' && s[|c|] == ':';
    assert a == s[..|a|] && c == s[..|c|];
    assert b == s[|a| + 1..] && d == s[|c| + 1..];
  }

  // Splitting anywhere else is not: the longer left part may have swallowed
  // the head of the other right part.
  lemma AnyColon(a: string, b: string, c: string, d: string)
    ensures a + ":" + b == c + ":" + d <==>
            (a == c && b == d) || Swallows(a, b, c, d) || Swallows(c, d, a, b)
  {
    if a + ":" + b == c + ":" + d {
      if |a| == |c| {
        FirstParts(a, b, c, d);
      } else if |c| < |a| {
        LongerSwallows(a, b, c, d);
      } else {
        LongerSwallows(c, d, a, b);
      }
    }
    if x: string :| a == c + ":" + x && d == x + ":" + b { Regroup(c, x, b); }
    if x: string :| c == a + ":" + x && b == x + ":" + d { Regroup(a, x, d); }
  }

  // `a` is `c` and the head of `d`, which ends in `b`.
  ghost predicate Swallows(a: string, b: string, c: string, d: string) {
    exists x: string :: a == c + ":" + x && d == x + ":" + b
  }

  lemma Regroup(c: string, x: string, b: string)
    ensures (c + ":" + x) + ":" + b == c + ":" + (x + ":" + b)
  {
  }

  lemma FirstParts(a: string, b: string, c: string, d: string)
    requires a + ":" + b == c + ":" + d && |a| == |c|
    ensures a == c && b == d
  {
    var s := a + ":" + b;
    assert a == s[..|a|] && c == s[..|c|];
    assert b == s[|a| + 1..] && d == s[|c| + 1..];
  }

  lemma LongerSwallows(a: string, b: string, c: string, d: string)
    requires a + ":" + b == c + ":" + d && |c| < |a|
    ensures Swallows(a, b, c, d)
  {
    var s := a + ":" + b;
    assert s[|c|] == ':';
    assert a == s[..|a|] && c == s[..|c|];
    assert b == s[|a| + 1..] && d == s[|c| + 1..];
    var x := s[|c| + 1..|a|];
    assert a == c + ":" + x && d == x + ":" + b;
  }

  lemma Assoc(p: string, r: string, e: string)
    ensures p + ":" + r + ":" + e == p + ":" + (r + ":" + e)
  {
  }

  // KeyCollisions below, on parts that are already normalised.
  lemma JoinedPartsCollide(p: string, r: string, e: string, p2: string, r2: string, e2: string)
    requires ColonFree(p) && ColonFree(p2)
    ensures p + ":" + r + ":" + e == p2 + ":" + r2 + ":" + e2 <==>
            p == p2 && ((r == r2 && e == e2) || Swallows(r, e, r2, e2) || Swallows(r2, e2, r, e))
  {
    Assoc(p, r, e);
    Assoc(p2, r2, e2);
    if p + ":" + r + ":" + e == p2 + ":" + r2 + ":" + e2 {
      FirstColon(p, r + ":" + e, p2, r2 + ":" + e2);
    }
    hide Swallows;
    AnyColon(r, e, r2, e2);
  }

  // The exact collisions of the key format, for PSP names without a colon
  // (they are constants of the code; references and event types are free
  // text). Two events share a key exactly when they agree on all three parts,
  // or when the event type of one spells out the tail of the other's
  // reference.
  lemma KeyCollisions(psp: string, ref: string, event: string, psp2: string, ref2: string, event2: string)
    requires ColonFree(psp) && ColonFree(psp2)
    ensures BuildKey(psp, ref, event) == BuildKey(psp2, ref2, event2) <==>
            && Norm(psp) == Norm(psp2)
            && (|| (Strip(ref) == Strip(ref2) && Norm(event) == Norm(event2))
                || (exists x: string ::
                      Norm(event2) == x + ":" + Norm(event) && Strip(ref) == Strip(ref2) + ":" + x)
                || (exists x: string ::
                      Norm(event) == x + ":" + Norm(event2) && Strip(ref2) == Strip(ref) + ":" + x))
  {
    NormalisedColonFree(psp);
    NormalisedColonFree(psp2);
    hide Strip, Norm;
    JoinedPartsCollide(Norm(psp), Strip(ref), Norm(event), Norm(psp2), Strip(ref2), Norm(event2));
  }

  // The same letter, in either case.
  predicate SameLetter(a: char, b: char) {
    || a == b
    || ('A' <= a <= 'Z' && b as int - 'a' as int == a as int - 'A' as int)
    || ('A' <= b <= 'Z' && a as int - 'a' as int == b as int - 'A' as int)
  }

  predicate CaseVariant(s: string, t: string) {
    |s| == |t| && forall i :: 0 <= i < |s| ==> SameLetter(s[i], t[i])
  }

  // A difference in case of the PSP or the event type never gives two
  // identical events different keys.
  lemma KeyIgnoresCase(psp: string, psp2: string, ref: string, event: string, event2: string)
    requires CaseVariant(psp, psp2) && CaseVariant(event, event2)
    ensures BuildKey(psp, ref, event) == BuildKey(psp2, ref, event2)
  {
    LowerIgnoresCase(psp, psp2);
    LowerIgnoresCase(event, event2);
    hide Strip, Lower;
  }

  lemma LowerIgnoresCase(s: string, t: string)
    requires CaseVariant(s, t)
    ensures Lower(s) == Lower(t)
  {
    hide Lower;
    forall i | 0 <= i < |s| ensures Lower(s)[i] == Lower(t)[i] { assert SameLetter(s[i], t[i]); }
  }

  // Neither does white space around a part.
  lemma KeyIgnoresSurroundings(psp: string, ref: string, event: string)
    ensures BuildKey(psp, Strip(ref), event) == BuildKey(psp, ref, event)
  {
    StripIdempotent(ref);
    hide Strip, Norm;
  }

  // ---- JSON payloads ------------------------------------------------------

  // A decoded JSON value. `shown` is what Python's `str()` prints for it.
  datatype Json =
    | Null
    | Text(s: string)
    | Number(shown: string, nonzero: bool)
    | Array(shown: string, nonempty: bool)
    | Object(shown: string, fields: map<string, Json>)

  predicate Truthy(v: Json) {
    match v
    case Null => false
    case Text(s) => s != ""
    case Number(_, nz) => nz
    case Array(_, ne) => ne
    case Object(_, f) => f != map[]
  }

  function Str(v: Json): string {
    match v
    case Null => "None"
    case Text(s) => s
    case Number(t, _) => t
    case Array(t, _) => t
    case Object(t, _) => t
  }

  // `d.get(name)`.
  function Get(d: map<string, Json>, name: string): Json {
    if name in d then d[name] else Null
  }

  // `a or b`.
  function Or(a: Json, b: Json): Json { if Truthy(a) then a else b }

  type Payload = map<string, Json>

  // The event type a connector reads from the payload root.
  function EventTypeOf(payload: Payload): string {
    Str(Or(Get(payload, "event"), Text("unknown")))
  }

  // A named event keeps its name.
  lemma EventTypeIsTaken(payload: Payload, t: string)
    requires Get(payload, "event") == Text(t)
    ensures EventTypeOf(payload) == if t != "" then t else "unknown"
  {
  }

  // ---- ingestion side -----------------------------------------------------

  // `extract_transaction_ref`; None when `data.get` raises because `data` is a
  // truthy value that is not an object.
  function ExtractRef(psp: string, payload: Payload, hash: string): Option<string> {
    var data := Get(payload, "data");
    if psp != "paystack" && psp != "flutterwave" then Some(FallbackRef(hash))
    else if Truthy(data) && !data.Object? then None
    else
      var d := if Truthy(data) then data.fields else map[];
      var ref := if psp == "paystack" then Get(d, "reference")
                 else Or(Get(d, "tx_ref"), Get(d, "reference"));
      Some(if Truthy(ref) then Str(ref) else FallbackRef(hash))
  }

  function FallbackRef(hash: string): string {
    "sha256-" + if |hash| < 32 then hash else hash[..32]
  }

  function IngestKey(psp: string, eventType: string, payload: Payload, hash: string): Option<string> {
    match ExtractRef(psp, payload, hash)
    case None => None
    case Some(ref) => Some(BuildKey(psp, ref, eventType))
  }

  // The data fields of an event.
  function DataOf(payload: Payload): map<string, Json> {
    if Get(payload, "data").Object? then Get(payload, "data").fields else map[]
  }

  // `t` is the text the PSP refers to the transaction by: Paystack's
  // reference, or Flutterwave's tx_ref, or its reference where tx_ref is
  // missing or empty.
  predicate RefersBy(psp: string, payload: Payload, t: string) {
    var d := DataOf(payload);
    || (psp == "paystack" && Get(d, "reference") == Text(t))
    || (psp == "flutterwave" && Get(d, "tx_ref") == Text(t))
    || (psp == "flutterwave" && !Truthy(Get(d, "tx_ref")) && Get(d, "reference") == Text(t))
  }

  // Ingestion registers an event under its PSP's own reference.
  lemma ReferenceIsTaken(psp: string, payload: Payload, hash: string, t: string)
    requires RefersBy(psp, payload, t) && t != ""
    ensures ExtractRef(psp, payload, hash) == Some(t)
  {
  }

  predicate Unreferenced(psp: string, payload: Payload) {
    var d := DataOf(payload);
    && (Truthy(Get(payload, "data")) ==> Get(payload, "data").Object?)
    && (psp == "paystack" ==> !Truthy(Get(d, "reference")))
    && (psp == "flutterwave" ==> !Truthy(Get(d, "tx_ref")) && !Truthy(Get(d, "reference")))
  }

  // Events without a reference have the same key exactly when their content
  // hashes begin alike: byte-identical redeliveries are recognised, and
  // nothing else is.
  lemma UnreferencedKeys(
    psp: string, eventType: string, payload: Payload, hash: string, payload2: Payload, hash2: string)
    requires Unreferenced(psp, payload) && Unreferenced(psp, payload2)
    requires |hash| >= 32 && |hash2| >= 32 && !IsSpace(hash[31]) && !IsSpace(hash2[31])
    ensures IngestKey(psp, eventType, payload, hash).Some?
    ensures IngestKey(psp, eventType, payload, hash) == IngestKey(psp, eventType, payload2, hash2) <==>
            hash[..32] == hash2[..32]
  {
    hide Norm, Strip, ExtractRef, IsSpace, Unreferenced;
    HashRef(psp, payload, hash);
    HashRef(psp, payload2, hash2);
    var (r, r2) := ("sha256-" + hash[..32], "sha256-" + hash2[..32]);
    MiddlesDiffer(Norm(psp), r, r2, Norm(eventType));
    assert r == r2 <==> hash[..32] == hash2[..32] by { SamePrefix("sha256-", hash[..32], hash2[..32]); }
  }

  lemma SamePrefix(p: string, x: string, y: string)
    ensures p + x == p + y <==> x == y
  {
    assert x == (p + x)[|p|..] && y == (p + y)[|p|..];
  }

  lemma MiddlesDiffer(p: string, r: string, r2: string, e: string)
    requires |r| == |r2|
    ensures p + ":" + r + ":" + e == p + ":" + r2 + ":" + e <==> r == r2
  {
    var (s, s2) := (p + ":" + r + ":" + e, p + ":" + r2 + ":" + e);
    assert r == s[|p| + 1..|p| + 1 + |r|] && r2 == s2[|p| + 1..|p| + 1 + |r|];
  }

  lemma HashRef(psp: string, payload: Payload, hash: string)
    requires Unreferenced(psp, payload) && |hash| >= 32 && !IsSpace(hash[31])
    ensures ExtractRef(psp, payload, hash) == Some("sha256-" + hash[..32])
    ensures Strip("sha256-" + hash[..32]) == "sha256-" + hash[..32]
  {
    NothingToStrip("sha256-" + hash[..32]);
    hide Strip;
  }

  lemma NothingToStrip(s: string)
    requires s != "" && !IsSpace(s[0]) && !IsSpace(s[|s| - 1])
    ensures Strip(s) == s
  {
  }

  // ---- Silver side --------------------------------------------------------

  datatype TxType = Credit | Debit | Reversal
  datatype Settlement = Pending | Settled | FailedSettlement | Reversed
  datatype Disposition = Skip | Accept(txType: TxType, settlement: Settlement)

  function FlutterwaveStatus(status: string): Option<Settlement> {
    if status == "successful" || status == "success" then Some(Settled)
    else if status == "failed" then Some(FailedSettlement)
    else if status == "pending" || status == "new" then Some(Pending)
    else None
  }

  function Classify(psp: string, eventType: string, payload: Payload): Disposition {
    var data := Get(payload, "data");
    if !data.Object? then Skip
    else if psp == "paystack" then
      if eventType == "charge.success" then Accept(Credit, Settled)
      else if eventType == "transfer.success" then Accept(Debit, Settled)
      else if eventType == "transfer.failed" then Accept(Debit, FailedSettlement)
      else if eventType == "transfer.reversed" then Accept(Reversal, Reversed)
      else Skip
    else if psp == "flutterwave" then
      if eventType != "charge.completed" && eventType != "transfer.completed" then Skip
      else
        var status := if "status" in data.fields then Lower(Str(data.fields["status"])) else "";
        match FlutterwaveStatus(status)
        case None => Skip
        case Some(s) =>
          if eventType == "charge.completed" then
            if s == Settled then Accept(Credit, Settled) else Skip
          else Accept(Debit, s)
    else Skip
  }

  // What each event of the vocabulary says about the money: Paystack in the
  // name of the event, Flutterwave in its status.
  predicate PaystackMeans(event: string, t: TxType, s: Settlement) {
    || (event == "charge.success" && t == Credit && s == Settled)
    || (event == "transfer.success" && t == Debit && s == Settled)
    || (event == "transfer.failed" && t == Debit && s == FailedSettlement)
    || (event == "transfer.reversed" && t == Reversal && s == Reversed)
  }

  predicate FlutterwaveMeans(event: string, status: string, t: TxType, s: Settlement) {
    || (event == "charge.completed" && t == Credit && s == Settled && status in {"successful", "success"})
    || (event == "transfer.completed" && t == Debit
        && (|| (s == Settled && status in {"successful", "success"})
            || (s == FailedSettlement && status == "failed")
            || (s == Pending && status in {"pending", "new"})))
  }

  function StatusOf(payload: Payload): string {
    if "status" in DataOf(payload) then Lower(Str(DataOf(payload)["status"])) else ""
  }

  predicate Means(psp: string, event: string, payload: Payload, t: TxType, s: Settlement) {
    && Get(payload, "data").Object?
    && (|| (psp == "paystack" && PaystackMeans(event, t, s))
        || (psp == "flutterwave" && FlutterwaveMeans(event, StatusOf(payload), t, s)))
  }

  // The classifier accepts exactly these events, with exactly this meaning.
  lemma AcceptedIff(psp: string, event: string, payload: Payload, t: TxType, s: Settlement)
    ensures Classify(psp, event, payload) == Accept(t, s) <==> Means(psp, event, payload, t, s)
  {
    hide Lower;
    if psp == "paystack" {
    } else if psp == "flutterwave" {
      StatusNames(StatusOf(payload));
      hide FlutterwaveStatus;
    }
  }

  lemma StatusNames(status: string)
    ensures FlutterwaveStatus(status) ==
            if status in {"successful", "success"} then Some(Settled)
            else if status == "failed" then Some(FailedSettlement)
            else if status in {"pending", "new"} then Some(Pending) else None
  {
  }

  datatype Normalised =
    | Row(key: string, psp: string, ref: string, event: string, txType: TxType, settlement: Settlement)
    | Permanent
    | Transient

  // The reference, key and classification part of the two normalisers. They
  // re-read the event type from `payload["event"]`: a missing field or an
  // unhashable value raises an error that the worker treats as transient.
  function Normalise(psp: string, payload: Payload): Normalised
    requires psp == "paystack" || psp == "flutterwave"
  {
    if "event" !in payload || payload["event"].Array? || payload["event"].Object? then Transient
    else if !payload["event"].Text? then Permanent
    else
      var event := payload["event"].s;
      match Classify(psp, event, payload)
      case Skip => Permanent
      case Accept(txType, settlement) =>
        var d := payload["data"].fields;
        var ref :=
          if psp == "paystack" then
            (if Truthy(Get(d, "reference")) then Strip(Str(d["reference"])) else "")
          else Strip(Str(Or(Or(Get(d, "tx_ref"), Get(d, "reference")), Text(""))));
        if ref == "" then Permanent
        else Row(BuildKey(psp, ref, event), psp, ref, event, txType, settlement)
  }

  // A Silver row says about the money what its event means, and carries the
  // PSP's own reference.
  lemma RowMeans(psp: string, payload: Payload)
    requires psp == "paystack" || psp == "flutterwave"
    requires Normalise(psp, payload).Row?
    ensures var row := Normalise(psp, payload);
      && row.psp == psp && Get(payload, "event") == Text(row.event)
      && Means(psp, row.event, payload, row.txType, row.settlement)
      && (forall t :: RefersBy(psp, payload, t) && t != "" ==> row.ref == Strip(t))
  {
    hide Strip, Lower, Means, Classify;
    var row := Normalise(psp, payload);
    AcceptedIff(psp, row.event, payload, row.txType, row.settlement);
    AcceptedHasData(psp, row.event, payload);
    forall t | RefersBy(psp, payload, t) && t != "" ensures row.ref == Strip(t) {
      RowRef(psp, payload, t);
    }
  }

  lemma AcceptedHasData(psp: string, event: string, payload: Payload)
    ensures Classify(psp, event, payload).Accept? ==> Get(payload, "data").Object?
  {
  }

  lemma RowRef(psp: string, payload: Payload, t: string)
    requires psp == "paystack" || psp == "flutterwave"
    requires Normalise(psp, payload).Row? && RefersBy(psp, payload, t) && t != ""
    ensures Normalise(psp, payload).ref == Strip(t)
  {
    hide Strip, Lower;
  }

  // The reference an event carries, before any fallback.
  function RawRef(psp: string, payload: Payload): string {
    var data := Get(payload, "data");
    if !data.Object? then ""
    else
      var ref := if psp == "paystack" then Get(data.fields, "reference")
                 else Or(Get(data.fields, "tx_ref"), Get(data.fields, "reference"));
      if Truthy(ref) then Str(ref) else ""
  }

  predicate UnreadableEvent(payload: Payload) {
    "event" !in payload || payload["event"].Array? || payload["event"].Object?
  }

  ghost predicate MeansSomething(psp: string, event: string, payload: Payload) {
    exists t, s :: Means(psp, event, payload, t, s)
  }

  // Of a PSP's payload the normaliser makes a row exactly when the event
  // means something and the reference is not blank. Only an event field that
  // is missing or no scalar is retried; everything else is given up at once.
  lemma NormalisedIff(psp: string, payload: Payload)
    requires psp == "paystack" || psp == "flutterwave"
    ensures Normalise(psp, payload) == Transient <==> UnreadableEvent(payload)
    ensures Normalise(psp, payload).Row? <==>
            && Get(payload, "event").Text? && MeansSomething(psp, Get(payload, "event").s, payload)
            && Strip(RawRef(psp, payload)) != ""
  {
    if Get(payload, "event").Text? {
      var event := Get(payload, "event").s;
      MeansIfAccepted(psp, event, payload);
      AcceptedHasData(psp, event, payload);
      RowIfReferenced(psp, payload);
    }
    hide Strip, Lower, Classify, Means, RawRef, MeansSomething;
  }

  lemma MeansIfAccepted(psp: string, event: string, payload: Payload)
    ensures Classify(psp, event, payload).Accept? <==> MeansSomething(psp, event, payload)
  {
    hide Classify, Means;
    if Classify(psp, event, payload).Accept? {
      var a := Classify(psp, event, payload);
      AcceptedIff(psp, event, payload, a.txType, a.settlement);
    }
    if MeansSomething(psp, event, payload) {
      var t, s :| Means(psp, event, payload, t, s);
      AcceptedIff(psp, event, payload, t, s);
    }
  }

  lemma RowIfReferenced(psp: string, payload: Payload)
    requires psp == "paystack" || psp == "flutterwave"
    requires Get(payload, "event").Text?
    ensures var event := Get(payload, "event").s;
      Normalise(psp, payload).Row? <==>
        Classify(psp, event, payload).Accept? && Strip(RawRef(psp, payload)) != ""
  {
    hide Strip, Lower, Classify;
    AcceptedHasData(psp, Get(payload, "event").s, payload);
    StripOfNothing();
  }

  // For an event that its connector built and the classifier accepts, the two
  // sides agree: a Silver row exists exactly when the reference is not blank,
  // its key is then the key registered at ingestion, and a blank reference is
  // a permanent error (never a retry, never a row under another key).
  lemma SilverKeyIsIngestKey(psp: string, payload: Payload, hash: string)
    requires Classify(psp, EventTypeOf(payload), payload).Accept?
    ensures psp == "paystack" || psp == "flutterwave"
    ensures Get(payload, "event").Text? ==>
              (Normalise(psp, payload) == Permanent <==> Strip(RawRef(psp, payload)) == "")
    ensures Get(payload, "event").Text? ==> !Normalise(psp, payload).Transient?
    ensures Normalise(psp, payload).Row? ==>
              IngestKey(psp, EventTypeOf(payload), payload, hash) == Some(Normalise(psp, payload).key)
  {
    StripIdempotent(RawRef(psp, payload));
    StripOfNothing();
    hide Strip, Norm, Lower;
  }

  lemma StripOfNothing()
    ensures Strip("") == ""
  {
  }

  // Deduplication in Silver never merges two different transactions: equal
  // keys mean the same PSP, the same reference and the same event type.
  lemma SilverKeysDistinguish(psp: string, payload: Payload, psp2: string, payload2: Payload)
    requires psp == "paystack" || psp == "flutterwave"
    requires psp2 == "paystack" || psp2 == "flutterwave"
    requires Normalise(psp, payload).Row? && Normalise(psp2, payload2).Row?
    ensures var (a, b) := (Normalise(psp, payload), Normalise(psp2, payload2));
            a.key == b.key <==> a.psp == b.psp && a.ref == b.ref && a.event == b.event
  {
    var (a, b) := (Normalise(psp, payload), Normalise(psp2, payload2));
    RowIsPlain(psp, payload);
    RowIsPlain(psp2, payload2);
    hide Strip, Norm, Lower, Normalise, Classify;
    KeyCollisions(a.psp, a.ref, a.event, b.psp, b.ref, b.event);
    forall x: string
      ensures b.event != x + ":" + a.event
    {
      HasColon(x, a.event);
    }
  }

  lemma HasColon(x: string, y: string)
    ensures !ColonFree(x + ":" + y)
  {
    assert (x + ":" + y)[|x|] == ':';
  }

  predicate Plain(s: string) {
    s != "" && forall i :: 0 <= i < |s| ==> 'a' <= s[i] <= 'z' || s[i] == '.'
  }

  lemma AlreadyNormal(s: string)
    requires s != "" && !IsSpace(s[0]) && !IsSpace(s[|s| - 1])
    requires forall i :: 0 <= i < |s| ==> !('A' <= s[i] <= 'Z')
    ensures Norm(s) == s && Strip(s) == s
  {
    assert Lower(s) == s;
  }

  lemma PlainIsNormal(s: string)
    requires Plain(s)
    ensures Norm(s) == s && ColonFree(s)
  {
    hide Norm, Strip, Lower;
    AlreadyNormal(s);
  }

  lemma VocabularyIsPlain()
    ensures Plain("paystack") && Plain("flutterwave")
    ensures Plain("charge.success") && Plain("charge.completed") && Plain("transfer.completed")
    ensures Plain("transfer.success") && Plain("transfer.failed") && Plain("transfer.reversed")
  {
  }

  lemma RowIsPlain(psp: string, payload: Payload)
    requires psp == "paystack" || psp == "flutterwave"
    requires Normalise(psp, payload).Row?
    ensures var a := Normalise(psp, payload);
            && ColonFree(a.psp) && ColonFree(a.event)
            && Norm(a.psp) == a.psp && Norm(a.event) == a.event && Strip(a.ref) == a.ref
            && a.key == BuildKey(a.psp, a.ref, a.event)
  {
    hide Strip, Norm, Lower, Plain;
    var a := Normalise(psp, payload);
    VocabularyIsPlain();
    PlainIsNormal(a.psp);
    PlainIsNormal(a.event);
    var d := payload["data"].fields;
    StripIdempotent(Str(Get(d, "reference")));
    StripIdempotent(Str(Or(Or(Get(d, "tx_ref"), Get(d, "reference")), Text(""))));
  }

  lemma PlainJoinIsNormal(r: string, x: string)
    requires Plain(r) && Plain(x)
    ensures Norm(r + ":" + x) == r + ":" + x && Strip(r + ":" + x) == r + ":" + x
    ensures Norm(r) == r && Strip(r) == r
  {
    hide Strip, Norm, Lower;
    var s := r + ":" + x;
    assert forall i :: 0 <= i < |s| ==>
      s[i] == if i < |r| then r[i] else if i == |r| then ':' else x[i - |r| - 1];
    AlreadyNormal(r);
    AlreadyNormal(s);
  }

  // Outside the vocabulary keys do collide: an unrecognised event type
  // `x:e` about reference `r` takes the key of a genuine event `e` about
  // reference `r:x`, although the classifier would never accept it.
  lemma UnrecognisedTypeCollides(psp: string, r: string, x: string, e: string, payload: Payload)
    requires Plain(r) && Plain(x) && Plain(e)
    ensures BuildKey(psp, r + ":" + x, e) == BuildKey(psp, r, x + ":" + e)
    ensures Classify(psp, x + ":" + e, payload) == Skip
  {
    hide Strip, Norm, Lower, Plain, IsSpace, ColonFree, Classify;
    PlainJoinIsNormal(r, x);
    PlainJoinIsNormal(x, e);
    PlainJoinIsNormal(e, e);
    HasColon(x, e);
    AcceptedIsPlain(psp, x + ":" + e, payload);
    JoinAssoc(Norm(psp), r, x, e);
  }

  lemma JoinAssoc(p: string, r: string, x: string, e: string)
    ensures p + ":" + (r + ":" + x) + ":" + e == p + ":" + r + ":" + (x + ":" + e)
  {
  }

  lemma AcceptedIsPlain(psp: string, eventType: string, payload: Payload)
    ensures Classify(psp, eventType, payload).Accept? ==> ColonFree(eventType)
  {
    VocabularyIsPlain();
    if Classify(psp, eventType, payload).Accept? {
      PlainIsNormal(eventType);
    }
  }
}
