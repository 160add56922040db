/** The payment function: it charges each record of a batch and reports the messages it could not process. */
module Processor {
  import opened Basics
  import opened Sqs

  /** The "amount" field after `Decimal(str(...))`. */
  datatype Amount = Missing | NotNumeric | NotFinite | Number(value: real)

  /** A message body after JSON decoding: the truth of "crash", the "order_id" when it is a string, the amount. */
  datatype Body = NotJson | NotObject | Object(crash: bool, orderId: Option<string>, amount: Amount)

  datatype Parsed = Invalid | Crash | Pay(order: string, amount: real)

  datatype Record = Record(id: MessageId, body: Body)

  const MAX_AMOUNT: real := 1000000.0

  /** The characters that `strip` removes. */
  predicate IsSpace(c: char) {
    var n := c as int;
    || 0x09 <= n <= 0x0D || 0x1C <= n <= 0x20 || n == 0x85 || n == 0xA0 || n == 0x1680 || 0x2000 <= n <= 0x200A
    || n == 0x2028 || n == 0x2029 || n == 0x202F || n == 0x205F || n == 0x3000
  }

  predicate IsBlank(s: string) {
    forall c :: c in s ==> IsSpace(c)
  }

  function Parse(body: Body): Parsed {
    if !body.Object? then Invalid
    else if body.crash then Crash
    else if body.orderId.None? || IsBlank(body.orderId.value) then Invalid
    else if !body.amount.Number? || body.amount.value <= 0.0 || body.amount.value > MAX_AMOUNT then Invalid
    else Pay(body.orderId.value, body.amount.value)
  }

  /** The table: idempotency records (the message that charged the order), charge counts and charged totals. */
  datatype Table = Table(records: map<string, MessageId>, charges: map<string, nat>, totals: map<string, real>)

  function Charges(t: Table, order: string): nat {
    if order in t.charges then t.charges[order] else 0
  }

  function Total(t: Table, order: string): real {
    if order in t.totals then t.totals[order] else 0.0
  }

  function AddCharge(t: Table, order: string, amount: real): Table {
    t.(charges := t.charges[order := Charges(t, order) + 1], totals := t.totals[order := Total(t, order) + amount])
  }

  /** One charge: with idempotency the record and the charge commit together, and only if the record is new. */
  function Charge(t: Table, idempotent: bool, order: string, amount: real, id: MessageId): Table {
    if !idempotent then AddCharge(t, order, amount)
    else if order in t.records then t
    else AddCharge(t.(records := t.records[order := id]), order, amount)
  }

  /** The table after the handler processed `records`, and its answer: None when a record crashed the function. */
  function HandleAll(t: Table, idempotent: bool, records: seq<Record>): (Table, Option<seq<MessageId>>)
    decreases |records|
  {
    if records == [] then (t, Some([]))
    else
      match Parse(records[0].body)
      case Crash => (t, None)
      case Invalid =>
        var (after, rest) := HandleAll(t, idempotent, records[1..]);
        (after, if rest.None? then None else Some([records[0].id] + rest.value))
      case Pay(order, amount) => HandleAll(Charge(t, idempotent, order, amount, records[0].id), idempotent, records[1..])
  }

  class PaymentTable {
    var records: map<string, MessageId>
    var charges: map<string, nat>
    var totals: map<string, real>

    constructor ()
      ensures State() == Table(map[], map[], map[])
    {
      records, charges, totals := map[], map[], map[];
    }

    function State(): Table
      reads this
    {
      Table(records, charges, totals)
    }

    /** True when this call charged the order, false when the order was charged before. */
    method ChargeOnce(idempotent: bool, order: string, amount: real, id: MessageId) returns (charged: bool)
      modifies this
      ensures State() == Charge(old(State()), idempotent, order, amount, id)
      ensures charged <==> !idempotent || order !in old(records)
    {
      if idempotent {
        if order in records {
          return false;
        }
        records := records[order := id];
      }
      charges := charges[order := (if order in charges then charges[order] else 0) + 1];
      totals := totals[order := (if order in totals then totals[order] else 0.0) + amount];
      return true;
    }

    method Handle(idempotent: bool, batch: seq<Record>) returns (answer: Option<seq<MessageId>>)
      modifies this
      ensures (State(), answer) == HandleAll(old(State()), idempotent, batch)
    {
      var failures := [];
      assert batch[0..] == batch;
      ContinueFromNothing(HandleAll(State(), idempotent, batch));
      for i := 0 to |batch|
        invariant HandleAll(old(State()), idempotent, batch) == Continue(HandleAll(State(), idempotent, batch[i..]), failures)
      {
        var r := batch[i];
        assert batch[i..][0] == r && batch[i..][1..] == batch[i + 1..];
        match Parse(r.body)
        case Crash =>
          return None;
        case Invalid =>
          ContinueOfAppend(HandleAll(State(), idempotent, batch[i + 1..]), failures, r.id);
          failures := failures + [r.id];
        case Pay(order, amount) =>
          var _ := ChargeOnce(idempotent, order, amount, r.id);
      }
      assert failures + [] == failures;
      return Some(failures);
    }
  }

  function Continue(result: (Table, Option<seq<MessageId>>), failures: seq<MessageId>): (Table, Option<seq<MessageId>>) {
    (result.0, if result.1.None? then None else Some(failures + result.1.value))
  }

  lemma ContinueFromNothing(result: (Table, Option<seq<MessageId>>))
    ensures Continue(result, []) == result
  {
    if result.1.Some? {
      assert [] + result.1.value == result.1.value;
    }
  }

  lemma ContinueOfAppend(result: (Table, Option<seq<MessageId>>), failures: seq<MessageId>, id: MessageId)
    ensures Continue(Continue(result, [id]), failures) == Continue(result, failures + [id])
  {
    if result.1.Some? {
      assert failures + ([id] + result.1.value) == failures + [id] + result.1.value;
    }
  }

  /** Every payment the handler reaches in this batch has its idempotency record. */
  predicate AllRecorded(t: Table, records: seq<Record>)
    decreases |records|
  {
    records == [] ||
    match Parse(records[0].body)
    case Crash => true
    case Invalid => AllRecorded(t, records[1..])
    case Pay(order, _) => order in t.records && AllRecorded(t, records[1..])
  }

  lemma {:induction false} HandleRecordsAll(t: Table, records: seq<Record>)
    ensures AllRecorded(HandleAll(t, true, records).0, records)
    ensures t.records.Keys <= HandleAll(t, true, records).0.records.Keys
    decreases |records|
  {
    if records != [] {
      match Parse(records[0].body)
      case Crash =>
      case Invalid => HandleRecordsAll(t, records[1..]);
      case Pay(order, amount) => HandleRecordsAll(Charge(t, true, order, amount, records[0].id), records[1..]);
    }
  }

  lemma {:induction false} RecordedChargesNothing(t: Table, records: seq<Record>)
    requires AllRecorded(t, records)
    ensures HandleAll(t, true, records).0 == t
    decreases |records|
  {
    if records != [] && !Parse(records[0].body).Crash? {
      RecordedChargesNothing(t, records[1..]);
    }
  }

  lemma {:induction false} AnswerIgnoresTheTable(t: Table, u: Table, idempotent: bool, records: seq<Record>)
    ensures HandleAll(t, idempotent, records).1 == HandleAll(u, idempotent, records).1
    decreases |records|
  {
    if records != [] {
      match Parse(records[0].body)
      case Crash =>
      case Invalid => AnswerIgnoresTheTable(t, u, idempotent, records[1..]);
      case Pay(order, amount) =>
        AnswerIgnoresTheTable(Charge(t, idempotent, order, amount, records[0].id),
                              Charge(u, idempotent, order, amount, records[0].id), idempotent, records[1..]);
    }
  }

  // Delivering a batch again, whether its first run finished or crashed, changes nothing and gets the same answer.
  lemma RedeliveryIsIdempotent(t: Table, records: seq<Record>)
    ensures var (once, answer) := HandleAll(t, true, records);
            HandleAll(once, true, records) == (once, answer)
  {
    var once := HandleAll(t, true, records).0;
    HandleRecordsAll(t, records);
    RecordedChargesNothing(once, records);
    AnswerIgnoresTheTable(t, once, true, records);
  }

  // ---- what a body means, on its fields ----

  predicate Crashes(body: Body) {
    body.Object? && body.crash
  }

  /** A JSON object with an order id that has a character to show, and a number above zero and up to a million. */
  predicate Payable(body: Body) {
    && body.Object? && !body.crash
    && body.orderId.Some? && (exists i :: 0 <= i < |body.orderId.value| && !IsSpace(body.orderId.value[i]))
    && body.amount.Number? && 0.0 < body.amount.value <= 1000000.0
  }

  predicate PaysOrder(body: Body, order: string) {
    Payable(body) && body.orderId.value == order
  }

  // In the ASCII range the blank characters are the space and those from tab to carriage return or from 28 to 31.
  lemma AsciiSpaces(c: char)
    requires c as int < 128
    ensures IsSpace(c) <==> c in {' ', '\t', '\n', '\r', 11 as char, 12 as char, 28 as char, 29 as char, 30 as char, 31 as char}
  {
  }

  lemma ParseMeans(body: Body)
    ensures Parse(body) == Crash <==> Crashes(body)
    ensures Parse(body).Pay? <==> Payable(body)
    ensures Payable(body) ==> Parse(body) == Pay(body.orderId.value, body.amount.value)
  {
    if body.Object? && body.orderId.Some? {
      var s := body.orderId.value;
      if !IsBlank(s) {
        var c :| c in s && !IsSpace(c);
        var i :| 0 <= i < |s| && s[i] == c;
      }
    }
  }

  /** How many records of the batch the handler reaches that pay this order. */
  function Deliveries(records: seq<Record>, order: string): nat
    decreases |records|
  {
    if records == [] || Crashes(records[0].body) then 0
    else (if PaysOrder(records[0].body, order) then 1 else 0) + Deliveries(records[1..], order)
  }

  /** The sum of their amounts. */
  function Amounts(records: seq<Record>, order: string): real
    decreases |records|
  {
    if records == [] || Crashes(records[0].body) then 0.0
    else (if PaysOrder(records[0].body, order) then records[0].body.amount.value else 0.0) + Amounts(records[1..], order)
  }

  // Without idempotency every record that is reached charges its order once more, by its amount, redelivered or not.
  lemma {:induction false} EveryDeliveryChargesWhenOff(t: Table, records: seq<Record>, order: string)
    ensures Charges(HandleAll(t, false, records).0, order) == Charges(t, order) + Deliveries(records, order)
    ensures Total(HandleAll(t, false, records).0, order) == Total(t, order) + Amounts(records, order)
    decreases |records|
  {
    if records != [] {
      ParseMeans(records[0].body);
      match Parse(records[0].body)
      case Crash =>
      case Invalid => EveryDeliveryChargesWhenOff(t, records[1..], order);
      case Pay(o, amount) =>
        EveryDeliveryChargesWhenOff(Charge(t, false, o, amount, records[0].id), records[1..], order);
    }
  }

  // With it, a batch charges each order of it that had no record, once.
  lemma {:induction false} NewOrdersAreChargedOnce(t: Table, records: seq<Record>, order: string)
    ensures Charges(HandleAll(t, true, records).0, order) ==
            Charges(t, order) + if Deliveries(records, order) > 0 && order !in t.records then 1 else 0
    ensures order in HandleAll(t, true, records).0.records <==> order in t.records || Deliveries(records, order) > 0
    decreases |records|
  {
    if records != [] {
      ParseMeans(records[0].body);
      match Parse(records[0].body)
      case Crash =>
      case Invalid => NewOrdersAreChargedOnce(t, records[1..], order);
      case Pay(o, amount) => NewOrdersAreChargedOnce(Charge(t, true, o, amount, records[0].id), records[1..], order);
    }
  }

  predicate NoCrash(records: seq<Record>) {
    forall i :: 0 <= i < |records| ==> !Crashes(records[i].body)
  }

  /** The ids of the records that are no payment, in order. */
  function RejectedIds(records: seq<Record>): seq<MessageId>
    decreases |records|
  {
    if records == [] then []
    else (if Payable(records[0].body) then [] else [records[0].id]) + RejectedIds(records[1..])
  }

  // The handler answers exactly when no record crashes it, and then with the ids of the records that are no payment.
  lemma {:induction false} AnswerIs(t: Table, idempotent: bool, records: seq<Record>)
    ensures HandleAll(t, idempotent, records).1 == if NoCrash(records) then Some(RejectedIds(records)) else None
    decreases |records|
  {
    if records != [] {
      var body := records[0].body;
      ParseMeans(body);
      assert records == [records[0]] + records[1..];
      assert NoCrash(records) <==> !Crashes(body) && NoCrash(records[1..]);
      if Payable(body) {
        AnswerIs(Charge(t, idempotent, body.orderId.value, body.amount.value, records[0].id), idempotent, records[1..]);
        assert RejectedIds(records) == RejectedIds(records[1..]);
      } else if !Crashes(body) {
        AnswerIs(t, idempotent, records[1..]);
      }
    }
  }

  lemma {:induction false} RejectedAre(records: seq<Record>, k: nat)
    requires k < |records| && !Payable(records[k].body)
    ensures records[k].id in RejectedIds(records)
    decreases |records|
  {
    if k > 0 {
      assert records[1..][k - 1] == records[k];
      RejectedAre(records[1..], k - 1);
    }
  }

  lemma FirstChargeOf(t: Table, order: string, amount: real, id: MessageId)
    requires order !in t.records
    ensures var after := Charge(t, true, order, amount, id);
            && order in after.records && after.records[order] == id
            && Charges(after, order) == Charges(t, order) + 1 && Total(after, order) == Total(t, order) + amount
    ensures forall o :: o != order ==>
              Charges(Charge(t, true, order, amount, id), o) == Charges(t, o)
              && Total(Charge(t, true, order, amount, id), o) == Total(t, o)
  {
  }

  lemma {:induction false} RecordedStays(t: Table, records: seq<Record>, order: string)
    requires order in t.records
    ensures var after := HandleAll(t, true, records).0;
            && order in after.records && after.records[order] == t.records[order]
            && Charges(after, order) == Charges(t, order) && Total(after, order) == Total(t, order)
    decreases |records|
  {
    if records != [] {
      match Parse(records[0].body)
      case Crash =>
      case Invalid => RecordedStays(t, records[1..], order);
      case Pay(o, amount) => RecordedStays(Charge(t, true, o, amount, records[0].id), records[1..], order);
    }
  }

  // A batch charges an order by the amount in the first payment of it that the handler reaches, and remembers that
  // message; the order has no record yet.
  lemma {:induction false} ChargesTheFirstPayment(t: Table, records: seq<Record>, k: nat)
    requires k < |records| && NoCrash(records[..k]) && Payable(records[k].body)
    requires records[k].body.orderId.value !in t.records
    requires forall j :: 0 <= j < k ==> !PaysOrder(records[j].body, records[k].body.orderId.value)
    ensures var order := records[k].body.orderId.value;
            var after := HandleAll(t, true, records).0;
            && Charges(after, order) == Charges(t, order) + 1
            && Total(after, order) == Total(t, order) + records[k].body.amount.value
            && order in after.records && after.records[order] == records[k].id
    decreases |records|
  {
    var order := records[k].body.orderId.value;
    ParseMeans(records[0].body);
    if k == 0 {
      var amount := records[0].body.amount.value;
      FirstChargeOf(t, order, amount, records[0].id);
      RecordedStays(Charge(t, true, order, amount, records[0].id), records[1..], order);
    } else {
      assert records[..k][0] == records[0];
      assert records[1..][k - 1] == records[k] && records[1..][..k - 1] == records[..k][1..];
      var next := if Payable(records[0].body)
                  then Charge(t, true, records[0].body.orderId.value, records[0].body.amount.value, records[0].id) else t;
      assert Charges(next, order) == Charges(t, order) && Total(next, order) == Total(t, order) && order !in next.records;
      ChargesTheFirstPayment(next, records[1..], k - 1);
    }
  }

  // An order that no record of the batch pays is left alone.
  lemma {:induction false} OthersAreLeftAlone(t: Table, idempotent: bool, records: seq<Record>, order: string)
    requires forall i :: 0 <= i < |records| ==> !PaysOrder(records[i].body, order)
    ensures var after := HandleAll(t, idempotent, records).0;
            && Charges(after, order) == Charges(t, order) && Total(after, order) == Total(t, order)
            && (order in after.records <==> order in t.records)
    decreases |records|
  {
    if records != [] {
      ParseMeans(records[0].body);
      assert forall i :: 0 <= i < |records[1..]| ==> records[1..][i] == records[i + 1];
      match Parse(records[0].body)
      case Crash =>
      case Invalid => OthersAreLeftAlone(t, idempotent, records[1..], order);
      case Pay(o, amount) => OthersAreLeftAlone(Charge(t, idempotent, o, amount, records[0].id), idempotent, records[1..], order);
    }
  }
}
