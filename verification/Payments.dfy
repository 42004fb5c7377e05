/**
 Validation and recording of the payments of a checkout. Amounts are in cents, as the
 money parser reads them; the text parsers are in DecimalText.
 */
module Payments {
  import opened Results
  import opened Identifiers
  import opened Sales
  import opened DecimalText

  /** One method with its binding to the store. A credit card with installments allows
      more than one, every other method exactly one. */
  datatype Method = Method(active: bool, boundActive: bool, allowsChange: bool, requiresReference: bool,
                           allowsInstallments: bool, maxInstallments: int)

  datatype PaymentInput = PaymentInput(methodId: Uuid, amount: nat, received: Option<nat>,
                                       installments: Option<int>, reference: Option<string>)

  /** A payment that passed validation. */
  datatype Settled = Settled(methodId: Uuid, amount: int, received: Option<int>, change: Option<int>,
                             installments: int, reference: Option<string>)

  datatype Payment = Payment(key: string, sale: Uuid, details: Settled)

  const MAX_REFERENCE: nat := 255

  /** Conversion to a 16-bit integer keeps the low bits. */
  function ToInt16(v: int): (r: int)
    ensures -32768 <= r <= 32767 && (-32768 <= v <= 32767 ==> r == v)
  {
    (v + 32768) % 65536 - 32768
  }

  function NormalizedInstallments(input: Option<int>): Result<int, PosError> {
    match input
    case None => Ok(1)
    case Some(v) => if v > 32767 then Err(ValidationError) else Ok(ToInt16(v))
  }

  function Trimmed(reference: Option<string>): Option<string> {
    if reference.None? then None else Some(TrimSpace(reference.value))
  }

  /** The input checks made before the transaction starts. */
  function InputError(inputs: seq<PaymentInput>): (e: Option<PosError>)
    ensures e.Some? ==> e.value == ValidationError
  {
    if inputs == [] then None
    else if NormalizedInstallments(inputs[0].installments).Err? || Trimmed(inputs[0].reference) == Some("")
    then Some(ValidationError)
    else InputError(inputs[1..])
  }

  /** The accepted installments and the received and change amounts that get stored. */
  function CheckReceived(m: Method, amount: int, received: Option<int>): Result<(Option<int>, Option<int>), PosError> {
    if m.allowsChange then
      match received
      case None => Ok((Some(amount), Some(0)))
      case Some(r) => if r < amount then Err(InvalidReceivedAmount) else Ok((Some(r), Some(r - amount)))
    else
      match received
      case None => Ok((None, None))
      case Some(r) => if r != amount then Err(InvalidReceivedAmount) else Ok((Some(r), None))
  }

  function CheckInstallments(m: Method, installments: int): Result<int, PosError> {
    if !m.allowsInstallments then
      if installments != 1 then Err(InvalidInstallments) else Ok(1)
    else if installments < 1 || installments > m.maxInstallments then Err(InvalidInstallments)
    else Ok(installments)
  }

  function CheckPayment(methods: map<Uuid, Method>, input: PaymentInput): Result<Settled, PosError> {
    if input.methodId !in methods then Err(MethodNotFound)
    else
      var m := methods[input.methodId];
      if !m.active then Err(MethodInactive)
      else if input.amount <= 0 then Err(AmountNotPositive)
      else
        match CheckReceived(m, input.amount, input.received)
        case Err(e) => Err(e)
        case Ok(parts) =>
          match NormalizedInstallments(input.installments)
          case Err(e) => Err(e)
          case Ok(wanted) =>
            match CheckInstallments(m, wanted)
            case Err(e) => Err(e)
            case Ok(n) =>
              if m.requiresReference && input.reference.None? then Err(ReferenceRequired)
              else Ok(Settled(input.methodId, input.amount, parts.0, parts.1, n, Trimmed(input.reference)))
  }

  /** In input order; the first bad payment decides the error. */
  function CheckAll(methods: map<Uuid, Method>, inputs: seq<PaymentInput>): Result<seq<Settled>, PosError> {
    if inputs == [] then Ok([])
    else
      match CheckPayment(methods, inputs[0])
      case Err(e) => Err(e)
      case Ok(first) =>
        match CheckAll(methods, inputs[1..])
        case Err(e) => Err(e)
        case Ok(rest) => Ok([first] + rest)
  }

  function AmountSum(ps: seq<Settled>): int {
    if ps == [] then 0 else ps[0].amount + AmountSum(ps[1..])
  }

  function ValidatePayments(methods: map<Uuid, Method>, total: int, inputs: seq<PaymentInput>)
      : Result<seq<Settled>, PosError>
  {
    if inputs == [] then Err(PaymentsRequired)
    else
      match CheckAll(methods, inputs)
      case Err(e) => Err(e)
      case Ok(ps) => if AmountSum(ps) != total then Err(PaymentAmountMismatch) else Ok(ps)
  }

  predicate KeyTaken(table: seq<Payment>, key: string) {
    exists i :: 0 <= i < |table| && table[i].key == key
  }

  /** The partial unique index on provider references. */
  predicate SameProviderReference(p: Settled, q: Settled) {
    p.methodId == q.methodId && p.reference.Some? && p.reference == q.reference
  }

  /** The references that the organization's other stores have recorded, with their
      methods: the index spans all of them. */
  type References = set<(Uuid, string)>

  predicate UsedElsewhere(elsewhere: References, p: Settled) {
    p.reference.Some? && (p.methodId, p.reference.value) in elsewhere
  }

  predicate UsedHere(table: seq<Payment>, p: Settled) {
    exists i :: 0 <= i < |table| && SameProviderReference(table[i].details, p)
  }

  predicate ReferenceUsed(elsewhere: References, table: seq<Payment>, p: Settled) {
    UsedElsewhere(elsewhere, p) || UsedHere(table, p)
  }

  /** The column types of a payment row. */
  predicate PaymentRowFits(p: Settled) {
    && InRange(p.amount)
    && (p.received.Some? ==> InRange(p.received.value))
    && (p.change.Some? ==> InRange(p.change.value))
    && (p.reference.Some? ==> |p.reference.value| <= MAX_REFERENCE)
  }

  /** The method is active, in the organization and in the store. */
  predicate Bound(methods: map<Uuid, Method>, id: Uuid) {
    id in methods && methods[id].active && methods[id].boundActive
  }

  /** One insert and its approval. A key already used returns an old row, which is not
      pending, so the approval finds nothing; a method not active in the store inserts nothing. */
  function CreatePayment(methods: map<Uuid, Method>, elsewhere: References, table: seq<Payment>, sale: Uuid, i: nat,
                         p: Settled)
      : Result<seq<Payment>, PosError>
  {
    var key := PaymentKey(sale, i);
    if KeyTaken(table, key) then Err(DatabaseError)
    else if !Bound(methods, p.methodId) then Err(DatabaseError)
    else if !PaymentRowFits(p) || ReferenceUsed(elsewhere, table, p) then Err(DatabaseError)
    else Ok(table + [Payment(key, sale, p)])
  }

  /** The payments from position `i` on. */
  function CreateFrom(methods: map<Uuid, Method>, elsewhere: References, table: seq<Payment>, sale: Uuid,
                      ps: seq<Settled>, i: nat)
      : Result<seq<Payment>, PosError>
    requires i <= |ps|
    decreases |ps| - i
  {
    if i == |ps| then Ok(table)
    else
      match CreatePayment(methods, elsewhere, table, sale, i, ps[i])
      case Err(e) => Err(e)
      case Ok(next) => CreateFrom(methods, elsewhere, next, sale, ps, i + 1)
  }

  // ----- what is recorded -----

  function PaymentsOf(table: seq<Payment>, sale: Uuid): seq<Payment> {
    if table == [] then []
    else
      var p := table[|table| - 1];
      PaymentsOf(table[..|table| - 1], sale) + if p.sale == sale then [p] else []
  }

  /** The rows a sale with these validated payments gets, keyed by position. */
  function Rows(sale: Uuid, ps: seq<Settled>): seq<Payment> {
    seq(|ps|, i requires 0 <= i < |ps| => Payment(PaymentKey(sale, i), sale, ps[i]))
  }

  function DetailsOf(rows: seq<Payment>): seq<Settled> {
    seq(|rows|, i requires 0 <= i < |rows| => rows[i].details)
  }

  lemma DetailsOfRows(sale: Uuid, ps: seq<Settled>)
    ensures DetailsOf(Rows(sale, ps)) == ps
  {
  }

  /** A stored payment keeps the money rules whatever becomes of its method. */
  predicate SettledOk(p: Settled) {
    && p.amount > 0 && p.installments >= 1
    && (p.received.Some? ==> p.received.value >= p.amount)
    && (p.change.Some? ==> p.received.Some? && p.change.value == p.received.value - p.amount)
    && (p.change.None? && p.received.Some? ==> p.received.value == p.amount)
  }

  lemma CheckPaymentSettles(methods: map<Uuid, Method>, input: PaymentInput)
    requires CheckPayment(methods, input).Ok?
    ensures var p := CheckPayment(methods, input).value;
      && SettledOk(p) && p.amount == input.amount && p.methodId == input.methodId
      && p.reference == Trimmed(input.reference)
      && var m := methods[p.methodId];
      && p.received == (if input.received.Some? then Some(input.received.value as int)
                        else if m.allowsChange then Some(input.amount as int) else None)
      && (m.allowsChange <==> p.change.Some?) && (m.requiresReference ==> p.reference.Some?)
      && (input.installments.None? ==> p.installments == 1)
      && (input.installments.Some? && input.installments.value >= 0 ==> p.installments == input.installments.value)
      && (m.maxInstallments >= 1 ==> p.installments <= m.maxInstallments)
  {
  }

  lemma {:induction false} CheckAllSettles(methods: map<Uuid, Method>, inputs: seq<PaymentInput>)
    requires CheckAll(methods, inputs).Ok?
    ensures var ps := CheckAll(methods, inputs).value;
      && |ps| == |inputs|
      && forall i :: 0 <= i < |ps| ==> SettledOk(ps[i]) && CheckPayment(methods, inputs[i]) == Ok(ps[i])
  {
    if inputs != [] {
      CheckPaymentSettles(methods, inputs[0]);
      CheckAllSettles(methods, inputs[1..]);
    }
  }

  /** The first input that fails its check decides the error. */
  lemma {:induction false} CheckAllFailsIff(methods: map<Uuid, Method>, inputs: seq<PaymentInput>, i: nat)
    requires i < |inputs| && CheckPayment(methods, inputs[i]).Err?
    requires forall j :: 0 <= j < i ==> CheckPayment(methods, inputs[j]).Ok?
    ensures CheckAll(methods, inputs) == Err(CheckPayment(methods, inputs[i]).error)
  {
    if i > 0 {
      assert CheckPayment(methods, inputs[0]).Ok?;
      CheckAllFailsIff(methods, inputs[1..], i - 1);
    }
  }

  lemma PaymentsOfAppend(table: seq<Payment>, p: Payment, sale: Uuid)
    ensures PaymentsOf(table + [p], sale) == PaymentsOf(table, sale) + if p.sale == sale then [p] else []
  {
    assert (table + [p])[..|table|] == table;
  }

  lemma AppendNext(table: seq<Payment>, rows: seq<Payment>, i: nat)
    requires i < |rows|
    ensures (table + [rows[i]]) + rows[i + 1..] == table + rows[i..]
  {
  }

  /** The table grows by exactly the rows of this sale. */
  lemma {:induction false} CreateFromAppends(methods: map<Uuid, Method>, elsewhere: References, table: seq<Payment>,
                                             sale: Uuid, ps: seq<Settled>, i: nat)
    requires i <= |ps| && CreateFrom(methods, elsewhere, table, sale, ps, i).Ok?
    ensures CreateFrom(methods, elsewhere, table, sale, ps, i).value == table + Rows(sale, ps)[i..]
    decreases |ps| - i
  {
    if i < |ps| {
      var rows := Rows(sale, ps);
      CreateFromAppends(methods, elsewhere, table + [rows[i]], sale, ps, i + 1);
      AppendNext(table, rows, i);
    }
  }

  lemma LastApart(table: seq<Payment>, rows: seq<Payment>)
    requires rows != []
    ensures table + rows == (table + rows[..|rows| - 1]) + [rows[|rows| - 1]]
  {
  }

  lemma {:induction false} PaymentsOfRows(table: seq<Payment>, rows: seq<Payment>, sale: Uuid, other: Uuid)
    requires forall i :: 0 <= i < |rows| ==> rows[i].sale == sale
    ensures PaymentsOf(table + rows, other) == PaymentsOf(table, other) + if other == sale then rows else []
  {
    if rows == [] {
      assert table + rows == table;
    } else {
      var init, last := rows[..|rows| - 1], rows[|rows| - 1];
      PaymentsOfRows(table, init, sale, other);
      assert table + rows == (table + init) + [last] by { LastApart(table, rows); }
      PaymentsOfAppend(table + init, last, other);
      assert other == sale ==> PaymentsOf(table, other) + init + [last] == PaymentsOf(table, other) + rows by {
        LastApart(PaymentsOf(table, other), rows);
      }
    }
  }

  lemma OwnRows(table: seq<Payment>, sale: Uuid, ps: seq<Settled>)
    requires PaymentsOf(table, sale) == []
    ensures PaymentsOf(table + Rows(sale, ps), sale) == Rows(sale, ps) && |Rows(sale, ps)| == |ps|
  {
    var rows := Rows(sale, ps);
    var empty: seq<Payment> := [];
    assert empty + rows == rows;
    PaymentsOfRows(table, rows, sale, sale);
  }

  /** The keys of one sale's rows differ from each other. */
  lemma RowKeysDistinct(sale: Uuid, ps: seq<Settled>, i: nat, j: nat)
    requires i < j < |ps|
    ensures Rows(sale, ps)[i].key != Rows(sale, ps)[j].key
  {
    if Rows(sale, ps)[i].key == Rows(sale, ps)[j].key {
      PaymentKeyInjective(sale, i, sale, j);
    }
  }

  // ----- when the rows can be written -----

  /** Every row of the table is keyed by its own sale and some position. */
  ghost predicate KeyedBySale(p: Payment) {
    exists i: nat :: p.key == PaymentKey(p.sale, i)
  }

  /** What the tables demand of the validated payments, beyond validation. */
  predicate Writable(methods: map<Uuid, Method>, elsewhere: References, table: seq<Payment>, ps: seq<Settled>, i: nat) {
    && (forall k :: i <= k < |ps| ==>
          Bound(methods, ps[k].methodId) && PaymentRowFits(ps[k]) && !ReferenceUsed(elsewhere, table, ps[k]))
    && (forall j, k :: i <= j < k < |ps| ==> !SameProviderReference(ps[j], ps[k]))
  }

  predicate FreeKeys(table: seq<Payment>, sale: Uuid, n: nat, i: nat) {
    forall k :: i <= k < n ==> !KeyTaken(table, PaymentKey(sale, k))
  }

  lemma {:induction false} NoPaymentsNoRow(table: seq<Payment>, sale: Uuid)
    requires PaymentsOf(table, sale) == []
    ensures forall i :: 0 <= i < |table| ==> table[i].sale != sale
  {
    if table != [] {
      NoPaymentsNoRow(table[..|table| - 1], sale);
    }
  }

  /** A sale without payments finds all its keys free. */
  lemma KeysAreFree(table: seq<Payment>, sale: Uuid, n: nat)
    requires PaymentsOf(table, sale) == [] && forall i :: 0 <= i < |table| ==> KeyedBySale(table[i])
    ensures FreeKeys(table, sale, n, 0)
  {
    NoPaymentsNoRow(table, sale);
    forall k, j | 0 <= k < n && 0 <= j < |table| ensures table[j].key != PaymentKey(sale, k) {
      if table[j].key == PaymentKey(sale, k) {
        var i: nat :| table[j].key == PaymentKey(table[j].sale, i);
        PaymentKeyInjective(sale, k, table[j].sale, i);
      }
    }
  }

  lemma KeysStayFree(table: seq<Payment>, sale: Uuid, n: nat, i: nat, p: Settled)
    requires i < n && FreeKeys(table, sale, n, i)
    ensures FreeKeys(table + [Payment(PaymentKey(sale, i), sale, p)], sale, n, i + 1)
  {
    var next := table + [Payment(PaymentKey(sale, i), sale, p)];
    forall k, j | i + 1 <= k < n && 0 <= j < |next| ensures next[j].key != PaymentKey(sale, k) {
      assert !KeyTaken(table, PaymentKey(sale, k));
      if next[j].key == PaymentKey(sale, k) && j == |table| {
        PaymentKeyInjective(sale, i, sale, k);
      }
    }
  }

  lemma UsedHereAppend(table: seq<Payment>, row: Payment, q: Settled)
    ensures UsedHere(table + [row], q) <==> UsedHere(table, q) || SameProviderReference(row.details, q)
  {
    var next := table + [row];
    if UsedHere(table, q) {
      var i :| 0 <= i < |table| && SameProviderReference(table[i].details, q);
      assert next[i] == table[i];
    }
    if SameProviderReference(row.details, q) {
      assert next[|table|] == row;
    }
  }

  lemma WritableStep(methods: map<Uuid, Method>, elsewhere: References, table: seq<Payment>, row: Payment,
                     ps: seq<Settled>, i: nat)
    requires i < |ps| && row.details == ps[i]
    requires Bound(methods, ps[i].methodId) && PaymentRowFits(ps[i]) && !ReferenceUsed(elsewhere, table, ps[i])
    ensures Writable(methods, elsewhere, table, ps, i) <==> Writable(methods, elsewhere, table + [row], ps, i + 1)
  {
    forall q ensures UsedHere(table + [row], q) <==> UsedHere(table, q) || SameProviderReference(ps[i], q) {
      UsedHereAppend(table, row, q);
    }
    if Writable(methods, elsewhere, table + [row], ps, i + 1) {
      forall j, k | i <= j < k < |ps| ensures !SameProviderReference(ps[j], ps[k]) {
        assert !ReferenceUsed(elsewhere, table + [row], ps[k]);
      }
      forall k | i <= k < |ps| ensures !ReferenceUsed(elsewhere, table, ps[k]) {
        if k > i { assert !ReferenceUsed(elsewhere, table + [row], ps[k]); }
      }
    }
  }

  /** The rows are written exactly when every method is active in the store, every
      column fits and no provider reference repeats in the organization. */
  lemma {:induction false} CreateFromIff(methods: map<Uuid, Method>, elsewhere: References, table: seq<Payment>,
                                         sale: Uuid, ps: seq<Settled>, i: nat)
    requires i <= |ps| && FreeKeys(table, sale, |ps|, i)
    ensures CreateFrom(methods, elsewhere, table, sale, ps, i).Ok? <==> Writable(methods, elsewhere, table, ps, i)
    ensures CreateFrom(methods, elsewhere, table, sale, ps, i).Err? ==>
      CreateFrom(methods, elsewhere, table, sale, ps, i).error == DatabaseError
    decreases |ps| - i
  {
    if i < |ps| {
      assert !KeyTaken(table, PaymentKey(sale, i));
      var r := CreatePayment(methods, elsewhere, table, sale, i, ps[i]);
      if r.Ok? {
        KeysStayFree(table, sale, |ps|, i, ps[i]);
        CreateFromIff(methods, elsewhere, r.value, sale, ps, i + 1);
        WritableStep(methods, elsewhere, table, r.value[|table|], ps, i);
      }
    }
  }

  // ----- references stay unique -----

  /** No two payments of the organization share a method's provider reference. */
  predicate ReferencesUnique(elsewhere: References, table: seq<Payment>) {
    && (forall i :: 0 <= i < |table| ==> !UsedElsewhere(elsewhere, table[i].details))
    && (forall i, j :: 0 <= i < j < |table| ==> !SameProviderReference(table[i].details, table[j].details))
  }

  lemma {:induction false} CreateFromKeepsReferences(methods: map<Uuid, Method>, elsewhere: References,
                                                     table: seq<Payment>, sale: Uuid, ps: seq<Settled>, i: nat)
    requires i <= |ps| && ReferencesUnique(elsewhere, table)
    requires CreateFrom(methods, elsewhere, table, sale, ps, i).Ok?
    ensures ReferencesUnique(elsewhere, CreateFrom(methods, elsewhere, table, sale, ps, i).value)
    decreases |ps| - i
  {
    if i < |ps| {
      var next := CreatePayment(methods, elsewhere, table, sale, i, ps[i]).value;
      assert !UsedHere(table, ps[i]);
      CreateFromKeepsReferences(methods, elsewhere, next, sale, ps, i + 1);
    }
  }
}
