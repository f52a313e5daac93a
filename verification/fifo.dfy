/** A per-payment draw-down: a cursor walks the payments in recorded order and
    each charge draws from the payment under the cursor until it is covered or
    the payments run out. The dashboard does not keep such a cursor; it pools
    every payment into one amount. This module shows, for non-negative
    amounts, that the two give the same statement and the same credit, so the
    pooled loop is "oldest charge first" allocation.
 */
module FifoDrawDown {
  import opened Treasury
  import opened Reconcile

  /** Sum of a sequence of amounts. */
  function Sum(xs: seq<int>): int
  {
    if |xs| == 0 then 0 else xs[0] + Sum(xs[1..])
  }

  /** The amounts of the rows, in order. */
  function Montos(rows: seq<Row>): (xs: seq<int>)
    ensures |xs| == |rows|
    ensures forall i | 0 <= i < |rows| :: xs[i] == rows[i].monto
  {
    if |rows| == 0 then [] else [rows[0].monto] + Montos(rows[1..])
  }

  predicate AllNonNegative(xs: seq<int>)
  {
    forall i | 0 <= i < |xs| :: xs[i] >= 0
  }

  /** What a charge still needs after drawing, and the balances of the payments
      from the cursor on. */
  datatype Draw = Draw(needed: int, pending: seq<int>)

  /** Draw `needed` from the payment balances `pending`, the cursor at its head. */
  function DrawDown(needed: int, pending: seq<int>): (d: Draw)
    ensures |d.pending| <= |pending|
    ensures needed >= 0 ==> 0 <= d.needed <= needed
    // the charge is covered by exactly what left the payments
    ensures AllNonNegative(pending) ==> (needed - d.needed) + Sum(d.pending) == Sum(pending)
  {
    if needed <= 0 || |pending| == 0 then Draw(needed, pending)
    else if pending[0] >= needed then Draw(0, [pending[0] - needed] + pending[1..])
    else if pending[0] > 0 then DrawDown(needed - pending[0], pending[1..])
    else DrawDown(needed, pending[1..])
  }

  /** A sum of non-negative amounts is non-negative. */
  lemma {:induction false} SumNonNegative(xs: seq<int>)
    requires AllNonNegative(xs)
    ensures Sum(xs) >= 0
  {
    if |xs| > 0 {
      SumNonNegative(xs[1..]);
    }
  }

  /** With non-negative balances, a draw leaves the charge short by exactly what
      the payments could not supply, and leaves in the payments exactly what the
      charge did not need. */
  lemma {:induction false} DrawDownShortfall(needed: int, pending: seq<int>)
    requires needed >= 0 && AllNonNegative(pending)
    ensures var d := DrawDown(needed, pending);
      && d.needed == (if needed > Sum(pending) then needed - Sum(pending) else 0)
      && Sum(d.pending) == (if Sum(pending) > needed then Sum(pending) - needed else 0)
      && AllNonNegative(d.pending)
  {
    if needed == 0 || |pending| == 0 {
      SumNonNegative(pending);
    } else if pending[0] >= needed {
      var rest := [pending[0] - needed] + pending[1..];
      assert rest[1..] == pending[1..];
      SumNonNegative(pending[1..]);
    } else {
      assert AllNonNegative(pending[1..]);
      if pending[0] > 0 {
        DrawDownShortfall(needed - pending[0], pending[1..]);
      } else {
        DrawDownShortfall(needed, pending[1..]);
      }
    }
  }

  /** One charge under the cursor policy: `Pagado` when nothing is needed any
      more, `Adeudo` when nothing was drawn, `Parcial` otherwise. */
  function FifoSettle(cargo: Row, pending: seq<int>): (r: (Line, seq<int>))
    ensures r.0.fecha == cargo.fecha && r.0.concepto == cargo.concepto
    ensures cargo.monto >= 0 ==> 0 <= r.0.falta <= cargo.monto
  {
    var d := DrawDown(cargo.monto, pending);
    var estatus :=
      if d.needed == 0 then Pagado
      else if d.needed == cargo.monto then Adeudo
      else Parcial;
    (Line(cargo.fecha, cargo.concepto, estatus, d.needed), d.pending)
  }

  /** The cursor draw-down over all charges; the credit is what remains in the
      payments, touched or not. */
  function FifoReconcile(cargos: seq<Row>, pending: seq<int>): (s: Statement)
    ensures |s.lines| == |cargos|
  {
    if |cargos| == 0 then Statement([], Sum(pending))
    else
      var (line, left) := FifoSettle(cargos[0], pending);
      var rest := FifoReconcile(cargos[1..], left);
      Statement([line] + rest.lines, rest.credito)
  }

  /** One charge drawn through the cursor gets the entry the pooled loop gives
      it, and leaves the pool the pooled loop leaves. */
  lemma FifoSettleAgrees(cargo: Row, pending: seq<int>)
    requires cargo.monto >= 0 && AllNonNegative(pending)
    ensures var (line, left) := FifoSettle(cargo, pending);
      && line == Settle(cargo, Sum(pending)).line
      && Sum(left) == Settle(cargo, Sum(pending)).dinero
      && AllNonNegative(left)
  {
    DrawDownShortfall(cargo.monto, pending);
    SumNonNegative(pending);
  }

  /** For non-negative amounts, the cursor draw-down and the pooled loop give
      the same statement and the same unallocated credit. */
  lemma {:induction false} FifoAgreesWithPool(cargos: seq<Row>, pending: seq<int>)
    requires NonNegative(cargos) && AllNonNegative(pending)
    ensures FifoReconcile(cargos, pending) == Allocate(cargos, Sum(pending))
  {
    if |cargos| > 0 {
      var (line, left) := FifoSettle(cargos[0], pending);
      FifoSettleAgrees(cargos[0], pending);
      assert NonNegative(cargos[1..]);
      FifoAgreesWithPool(cargos[1..], left);
    }
  }

  /** The sum of the amounts is the `Monto` total. */
  lemma {:induction false} SumMontos(rows: seq<Row>)
    ensures Sum(Montos(rows)) == Total(rows)
  {
    if |rows| > 0 {
      assert Montos(rows)[1..] == Montos(rows[1..]);
      SumMontos(rows[1..]);
    }
  }

  /** A member's statement equals the one obtained by drawing each charge, in
      recorded order, from the member's payments in recorded order. */
  lemma EstadoIsFifo(rows: seq<Row>)
    requires NonNegative(rows)
    ensures EstadoDeCuenta(rows) == FifoReconcile(Cargos(rows), Montos(Abonos(rows)))
  {
    OfTipoNonNegative(rows, Cargo);
    OfTipoNonNegative(rows, Abono);
    SumMontos(Abonos(rows));
    FifoAgreesWithPool(Cargos(rows), Montos(Abonos(rows)));
  }
}
