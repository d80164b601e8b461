/** The aggregate figures and per-row balance of the admin console's fee page. */
module FeesPage {

  import Seqs
  import Fees

  datatype Stats = Stats(total: int, paid: int, pending: int)

  function Amount(f: Fees.Fee): int { f.amount }
  function Paid(f: Fees.Fee): int { f.paidAmount }

  /** The balance column: amount less paid, ignoring late fee and discount. */
  function RowBalance(f: Fees.Fee): (b: int)
    ensures b == Fees.Balance(f) - f.lateFee + f.discount
  {
    f.amount - f.paidAmount
  }

  /** `getTotalStats`: billed total, collected total, and their difference. */
  function TotalStats(fees: seq<Fees.Fee>): (s: Stats)
    ensures s.pending == s.total - s.paid
    ensures s.pending == Seqs.Sum(fees, RowBalance)
    ensures |fees| == 0 ==> s == Stats(0, 0, 0)
  {
    var total := Seqs.Sum(fees, Amount);
    var paid := Seqs.Sum(fees, Paid);
    SumRowBalances(fees);
    Stats(total, paid, total - paid)
  }

  lemma {:induction false} SumRowBalances(fees: seq<Fees.Fee>)
    ensures Seqs.Sum(fees, RowBalance) == Seqs.Sum(fees, Amount) - Seqs.Sum(fees, Paid)
  {
    if |fees| > 0 {
      SumRowBalances(fees[1..]);
    }
  }

  /** Adding a fee to the list adds its amount, payment and row balance to the figures. */
  lemma {:induction false} StatsAppend(fees: seq<Fees.Fee>, f: Fees.Fee)
    ensures TotalStats(fees + [f]).total == TotalStats(fees).total + f.amount
    ensures TotalStats(fees + [f]).paid == TotalStats(fees).paid + f.paidAmount
    ensures TotalStats(fees + [f]).pending == TotalStats(fees).pending + RowBalance(f)
  {
    SumAppend(fees, f, Amount);
    SumAppend(fees, f, Paid);
  }

  lemma {:induction false} SumAppend(s: seq<Fees.Fee>, x: Fees.Fee, g: Fees.Fee -> int)
    ensures Seqs.Sum(s + [x], g) == Seqs.Sum(s, g) + g(x)
  {
    if |s| == 0 {
      assert s + [x] == [x];
    } else {
      assert (s + [x])[1..] == s[1..] + [x];
      SumAppend(s[1..], x, g);
    }
  }
}
