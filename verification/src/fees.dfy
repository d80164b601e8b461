/** Fee documents: the `balance` virtual, the status the pre-save hook derives, and the fee
    handlers (list, create, record a payment). Money is in minor units. */
module Fees {

  import opened Wrappers
  import opened Http
  import Seqs
  import Store

  const Statuses: seq<string> := ["pending", "paid", "overdue", "partial"]
  const PaymentMethods: seq<string> := ["cash", "card", "bank_transfer", "online", "cheque"]
  const Terms: seq<string> := ["Term 1", "Term 2", "Term 3", "Annual"]
  const FeeTypes: seq<string> := ["tuition", "admission", "exam", "transport", "library", "sports", "other"]

  datatype Fee = Fee(
    studentId: string,
    academicYear: string,
    term: string,
    feeType: string,
    amount: int,
    dueDate: int,
    status: string,
    paidAmount: int,
    paidAt: Option<int>,
    paymentMethod: Option<string>,
    transactionId: Option<string>,
    discount: int,
    lateFee: int)

  type Fees = seq<Store.Doc<Fee>>

  /** The `balance` virtual: what is still owed. */
  function Balance(f: Fee): (r: int)
    ensures r <= 0 <==> f.paidAmount >= f.amount + f.lateFee - f.discount
  {
    f.amount + f.lateFee - f.discount - f.paidAmount
  }

  /** The status the pre-save hook assigns, first match wins: settled, part-paid, past due,
      otherwise pending. The previous status plays no part. */
  function DerivedStatus(f: Fee, now: int): (st: string)
    ensures st in Statuses
    ensures st == "paid" <==> Balance(f) <= 0
    ensures st == "partial" <==> Balance(f) > 0 && f.paidAmount > 0
    ensures st == "overdue" <==> Balance(f) > 0 && f.paidAmount <= 0 && now > f.dueDate
    ensures st == "pending" <==> Balance(f) > 0 && f.paidAmount <= 0 && now <= f.dueDate
  {
    if Balance(f) <= 0 then "paid"
    else if f.paidAmount > 0 then "partial"
    else if now > f.dueDate then "overdue"
    else "pending"
  }

  /** `fee.save()`: the hook overwrites the status from the other fields and `now`. */
  function Save(f: Fee, now: int): (g: Fee)
    ensures g.(status := f.status) == f
    ensures g.status == DerivedStatus(f, now)
    ensures g.status in Statuses
  {
    f.(status := DerivedStatus(f, now))
  }

  /** Saving again with the same fields and clock changes nothing. */
  lemma SaveIdempotent(f: Fee, now: int)
    ensures Save(Save(f, now), now) == Save(f, now)
  {
  }

  /** Any positive payment keeps a fee out of `overdue`, however late it is. */
  lemma PaidSomethingNeverOverdue(f: Fee, now: int)
    requires f.paidAmount > 0
    ensures DerivedStatus(f, now) != "overdue"
    ensures DerivedStatus(f, now) in ["paid", "partial"]
  {
  }

  /** The body of a create-fee request; absent fields are `None`. */
  datatype FeeInput = FeeInput(
    studentId: Option<string>,
    academicYear: Option<string>,
    term: Option<string>,
    feeType: Option<string>,
    amount: Option<int>,
    dueDate: Option<int>,
    status: Option<string>,
    paidAmount: Option<int>,
    paidAt: Option<int>,
    paymentMethod: Option<string>,
    transactionId: Option<string>,
    discount: Option<int>,
    lateFee: Option<int>)

  /** What the schema validator demands before the hook runs. */
  predicate ValidFeeInput(b: FeeInput) {
    && b.studentId.Some? && Store.IsObjectId(b.studentId.value)
    && b.academicYear.Some? && b.academicYear.value != ""
    && b.term.Some? && b.term.value in Terms
    && b.feeType.Some? && b.feeType.value in FeeTypes
    && b.amount.Some? && b.dueDate.Some?
    && (b.status.None? || b.status.value in Statuses)
    && (b.paymentMethod.None? || b.paymentMethod.value in PaymentMethods)
  }

  /** `createFee`: numeric fields the request leaves out default to 0, and the stored status is
      always the derived one whatever the request said. */
  function CreateFee(store: Fees, b: FeeInput, newId: string, now: int): (r: Step<Fee, Fees>)
    ensures r.response.Success? <==> ValidFeeInput(b)
    ensures r.response.Failure? ==> r == Step(Failure(SERVER_ERROR, "Server error"), store)
    ensures r.response.Success? ==>
      && r.response.code == CREATED
      && r.store == Store.Insert(store, newId, r.response.data)
      && r.response.data.studentId == Store.Canon(b.studentId.value)
      && r.response.data.amount == b.amount.value && r.response.data.dueDate == b.dueDate.value
      && r.response.data.academicYear == b.academicYear.value && r.response.data.term == b.term.value
      && r.response.data.feeType == b.feeType.value && r.response.data.paymentMethod == b.paymentMethod
      && r.response.data.paidAmount == b.paidAmount.GetOr(0)
      && r.response.data.paidAt == b.paidAt && r.response.data.transactionId == b.transactionId
      && r.response.data.discount == b.discount.GetOr(0)
      && r.response.data.lateFee == b.lateFee.GetOr(0)
      && r.response.data.status == DerivedStatus(r.response.data, now)
  {
    if !ValidFeeInput(b) then Step(Failure(SERVER_ERROR, "Server error"), store)
    else
      var f := Fee(Store.Canon(b.studentId.value), b.academicYear.value, b.term.value, b.feeType.value,
                   b.amount.value, b.dueDate.value, b.status.GetOr("pending"), b.paidAmount.GetOr(0),
                   b.paidAt, b.paymentMethod, b.transactionId, b.discount.GetOr(0), b.lateFee.GetOr(0));
      var g := Save(f, now);
      Step(Success(CREATED, g), Store.Insert(store, newId, g))
  }

  /** `recordPayment`: malformed id 500, unknown fee 404; otherwise the payment is added with no bound check,
      the method and transaction are overwritten, `paidAt` is `now`, and the status is
      re-derived; a method outside the enum fails validation (500). */
  function RecordPayment(store: Fees, id: string, amount: int, paymentMethod: Option<string>,
                         transactionId: Option<string>, now: int): (r: Step<Fee, Fees>)
    ensures !Store.IsObjectId(id) ==> r == Step(Failure(SERVER_ERROR, "Server error"), store)
    ensures Store.IsObjectId(id) && !Store.HasId(store, Store.Canon(id)) ==> r == Step(Failure(NOT_FOUND, "Not found"), store)
    ensures r.response.Failure? ==> r.store == store
    ensures Store.IsObjectId(id) && Store.HasId(store, Store.Canon(id)) && paymentMethod.Some? && paymentMethod.value !in PaymentMethods ==>
      r.response == Failure(SERVER_ERROR, "Server error")
    ensures r.response.Success? <==>
      Store.IsObjectId(id) && Store.HasId(store, Store.Canon(id)) && (paymentMethod.None? || paymentMethod.value in PaymentMethods)
    ensures r.response.Success? ==>
      && Store.IsObjectId(id) && Store.Find(store, Store.Canon(id)).Some?
      && var f := Store.Find(store, Store.Canon(id)).value;
      var g := r.response.data;
      && r.response.code == OK
      && g.paidAmount == f.paidAmount + amount
      && g.amount == f.amount && g.discount == f.discount && g.lateFee == f.lateFee
      && g.dueDate == f.dueDate && g.studentId == f.studentId
      && g.paymentMethod == paymentMethod && g.transactionId == transactionId
      && g.paidAt == Some(now)
      && g.academicYear == f.academicYear && g.term == f.term && g.feeType == f.feeType
      && g == f.(paidAmount := g.paidAmount, paidAt := g.paidAt, paymentMethod := g.paymentMethod,
                 transactionId := g.transactionId, status := g.status)
      && g.status == DerivedStatus(g, now)
      && Balance(g) == Balance(f) - amount
      && r.store == Store.Update(store, Store.Canon(id), (_: Fee) => g)
  {
    match Store.Lookup(store, id)
    case Halt(code, e) => Step(Failure(code, e), store)
    case Next(f) =>
      if paymentMethod.Some? && paymentMethod.value !in PaymentMethods then
        Step(Failure(SERVER_ERROR, "Server error"), store)
      else
        var g := Save(f.(paidAmount := f.paidAmount + amount, paidAt := Some(now),
                         paymentMethod := paymentMethod, transactionId := transactionId), now);
        Step(Success(OK, g), Store.Update(store, Store.Canon(id), (_: Fee) => g))
  }

  /** Paying at least the outstanding balance settles the fee, and an overpayment is accepted
      and leaves a negative balance. */
  lemma PayingBalanceSettles(store: Fees, id: string, amount: int, now: int)
    requires Store.IsObjectId(id) && Store.Find(store, Store.Canon(id)).Some? && amount >= Balance(Store.Find(store, Store.Canon(id)).value)
    ensures var r := RecordPayment(store, id, amount, None, None, now);
      r.response.Success? && r.response.data.status == "paid"
      && (amount > Balance(Store.Find(store, Store.Canon(id)).value) ==> Balance(r.response.data) < 0)
  {
  }

  /** A payment lowers the balance by exactly its amount, and a late fee raises it by its own. */
  lemma BalanceTracksPayments(f: Fee, paid: int, late: int)
    ensures Balance(f.(paidAmount := f.paidAmount + paid)) == Balance(f) - paid
    ensures Balance(f.(lateFee := f.lateFee + late)) == Balance(f) + late
  {
  }

  /** The query of a list request; an empty string is no filter. */
  datatype FeeQuery = FeeQuery(studentId: string, status: string, academicYear: string)

  /** A student filter is cast to an ObjectId and matches the stored reference in either
      letter case. */
  predicate Matches(f: Fee, q: FeeQuery) {
    && (q.studentId == "" || f.studentId == Store.Canon(q.studentId))
    && (q.status == "" || f.status == q.status)
    && (q.academicYear == "" || f.academicYear == q.academicYear)
  }

  /** `sort({dueDate: -1})`. */
  predicate LaterDueFirst(a: Store.Doc<Fee>, b: Store.Doc<Fee>) {
    a.body.dueDate >= b.body.dueDate
  }

  /** `getAllFees`: a student filter that does not cast to an ObjectId makes the query throw
      (500); otherwise the matching fees, latest due date first. The status compared is the
      stored one, derived at the fee's last save. */
  function GetAllFees(store: Fees, q: FeeQuery): (r: Response<seq<Store.Doc<Fee>>>)
    ensures r.Failure? <==> q.studentId != "" && !Store.IsObjectId(q.studentId)
    ensures r.Failure? ==> r == Failure(SERVER_ERROR, "Server error")
    ensures r.Success? ==> r.code == OK
    ensures r.Success? ==> forall d :: d in r.data <==> d in store && Matches(d.body, q)
    ensures r.Success? ==> multiset(r.data) == multiset(Seqs.Filter(store, (d: Store.Doc<Fee>) => Matches(d.body, q)))
    ensures r.Success? ==> forall i, j :: 0 <= i < j < |r.data| ==> r.data[i].body.dueDate >= r.data[j].body.dueDate
  {
    if q.studentId != "" && !Store.IsObjectId(q.studentId) then Failure(SERVER_ERROR, "Server error")
    else
      var r := Seqs.Query(store, (d: Store.Doc<Fee>) => Matches(d.body, q), LaterDueFirst);
      Seqs.QuerySorted(store, (d: Store.Doc<Fee>) => Matches(d.body, q), LaterDueFirst);
      Success(OK, r)
  }

  /** A created fee is listed under its student's id, in whichever letter case the filter
      names it. */
  lemma CreatedFeeListed(store: Fees, b: FeeInput, newId: string, now: int, sid: string)
    requires ValidFeeInput(b) && Store.Canon(sid) == Store.Canon(b.studentId.value)
    ensures var c := CreateFee(store, b, newId, now);
      var l := GetAllFees(c.store, FeeQuery(sid, "", ""));
      l.Success? && Store.Doc(newId, c.response.data) in l.data
  {
    var c := CreateFee(store, b, newId, now);
    assert Store.IsObjectId(sid) by {
      assert Store.IsObjectId(Store.Canon(sid));
    }
    assert c.store[|store|] == Store.Doc(newId, c.response.data);
  }
}
