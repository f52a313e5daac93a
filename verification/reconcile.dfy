/** The member statement of the "Mi Tablero" view: every payment of the member
    is pooled into one amount, and the charges are walked in recorded order,
    each one taking what it can from the pool.
 */
module Reconcile {
  import opened Treasury

  /** The `Estatus` column of the statement. */
  datatype Estatus = Pagado | Parcial | Adeudo

  /** One statement entry: date and concept of the charge, its status, and the
      amount still owed on it (`Falta`). */
  datatype Line = Line(fecha: string, concepto: string, estatus: Estatus, falta: int)

  /** One entry per charge, plus the money left in the pool after the last
      charge (the member's unallocated credit). */
  datatype Statement = Statement(lines: seq<Line>, credito: int)

  /** The outcome of one iteration of the loop: the entry and the pool after it. */
  datatype Step = Step(line: Line, dinero: int)

  /** Sum of the `Falta` column. */
  function TotalFalta(lines: seq<Line>): int
  {
    if |lines| == 0 then 0 else lines[0].falta + TotalFalta(lines[1..])
  }

  /** One iteration: charge `cargo` against the pool `dinero`. */
  function Settle(cargo: Row, dinero: int): (s: Step)
    ensures s.line.fecha == cargo.fecha && s.line.concepto == cargo.concepto
    // what the charge takes out of the pool is exactly what it is credited with
    ensures (cargo.monto - s.line.falta) + s.dinero == dinero
    ensures s.line.estatus == Pagado <==> dinero >= cargo.monto
    ensures s.line.estatus == Parcial <==> 0 < dinero < cargo.monto
    ensures dinero >= 0 ==> s.dinero >= 0
    ensures cargo.monto >= 0 && dinero >= 0 ==>
      && 0 <= s.line.falta <= cargo.monto
      && s.dinero <= dinero
      && (s.line.estatus == Pagado <==> s.line.falta == 0)
      && (s.line.estatus != Pagado ==> s.dinero == 0)
  {
    if dinero >= cargo.monto then
      Step(Line(cargo.fecha, cargo.concepto, Pagado, 0), dinero - cargo.monto)
    else if dinero > 0 then
      Step(Line(cargo.fecha, cargo.concepto, Parcial, cargo.monto - dinero), 0)
    else
      Step(Line(cargo.fecha, cargo.concepto, Adeudo, cargo.monto), dinero)
  }

  /** The allocation loop, started with the pool `dinero`. */
  function Allocate(cargos: seq<Row>, dinero: int): (s: Statement)
    ensures |s.lines| == |cargos|
    ensures forall i | 0 <= i < |cargos| ::
      s.lines[i].fecha == cargos[i].fecha && s.lines[i].concepto == cargos[i].concepto
    // conservation: money credited to charges plus money left equals the pool
    ensures (Total(cargos) - TotalFalta(s.lines)) + s.credito == dinero
    ensures dinero >= 0 ==> s.credito >= 0
  {
    if |cargos| == 0 then Statement([], dinero)
    else
      var step := Settle(cargos[0], dinero);
      var rest := Allocate(cargos[1..], step.dinero);
      Statement([step.line] + rest.lines, rest.credito)
  }

  /** The statement of a member's rows: the charges against the pooled payments. */
  function EstadoDeCuenta(rows: seq<Row>): (s: Statement)
    ensures |s.lines| == |Cargos(rows)|
    // the balance is what is still owed minus the credit left over
    ensures Saldo(rows) == TotalFalta(s.lines) - s.credito
  {
    Allocate(Cargos(rows), Total(Abonos(rows)))
  }

  /** The balance indicator shown next to the statement. */
  datatype Indicador = SaldoPendiente(monto: int) | APlomo

  function IndicadorDe(saldo: int): (k: Indicador)
    ensures k.APlomo? <==> saldo <= 0
    ensures k.SaldoPendiente? ==> k.monto == saldo > 0
  {
    if saldo > 0 then SaldoPendiente(saldo) else APlomo
  }

  /** What the dashboard shows of one member's treasury rows. */
  datatype Tablero = Tablero(indicador: Indicador, estado: Statement)

  /** The dashboard of member `id` over the whole treasury sheet. */
  function TableroDe(rows: seq<Row>, id: string): (t: Tablero)
    ensures t.indicador.APlomo? <==> Saldo(MemberRows(rows, id)) <= 0
    ensures t.indicador.SaldoPendiente? ==> t.indicador.monto == Saldo(MemberRows(rows, id))
    ensures |t.estado.lines| == |Cargos(MemberRows(rows, id))|
    // the statement reconciles with the member's own balance
    ensures Saldo(MemberRows(rows, id)) == TotalFalta(t.estado.lines) - t.estado.credito
  {
    var mine := MemberRows(rows, id);
    Tablero(IndicadorDe(Saldo(mine)), EstadoDeCuenta(mine))
  }

  /** A row of another member, inserted anywhere in the sheet, changes nothing
      on a member's dashboard. */
  lemma TableroOtherMemberIgnored(a: seq<Row>, r: Row, b: seq<Row>, id: string)
    requires r.idH != id
    ensures TableroDe(a + [r] + b, id) == TableroDe(a + b, id)
  {
    OtherMemberIgnored(a, r, b, id);
  }

  /** With non-negative amounts, every entry owes between nothing and its whole
      charge; `Pagado` means nothing is owed, `Parcial` a part, `Adeudo` all of
      a positive charge; and the pool never grows. */
  lemma {:induction false} AllocateBounds(cargos: seq<Row>, dinero: int)
    requires NonNegative(cargos) && dinero >= 0
    ensures var s := Allocate(cargos, dinero);
      && 0 <= s.credito <= dinero
      && forall i | 0 <= i < |cargos| ::
        && 0 <= s.lines[i].falta <= cargos[i].monto
        && (s.lines[i].estatus == Pagado <==> s.lines[i].falta == 0)
        && (s.lines[i].estatus == Parcial <==> 0 < s.lines[i].falta < cargos[i].monto)
        && (s.lines[i].estatus == Adeudo <==> 0 < s.lines[i].falta == cargos[i].monto)
  {
    if |cargos| > 0 {
      var step := Settle(cargos[0], dinero);
      AllocateBounds(cargos[1..], step.dinero);
    }
  }

  /** With no money in the pool, every positive charge is `Adeudo` for its whole
      amount, every zero charge is `Pagado`, and no credit is left. */
  lemma {:induction false} NoPayments(cargos: seq<Row>)
    requires NonNegative(cargos)
    ensures var s := Allocate(cargos, 0);
      && s.credito == 0
      && forall i | 0 <= i < |cargos| ::
        && (cargos[i].monto > 0 ==> s.lines[i].estatus == Adeudo && s.lines[i].falta == cargos[i].monto)
        && (cargos[i].monto == 0 ==> s.lines[i].estatus == Pagado && s.lines[i].falta == 0)
  {
    if |cargos| > 0 {
      NoPayments(cargos[1..]);
    }
  }

  /** When the pool covers the total charged, every entry is `Pagado` and the
      credit left is the surplus. */
  lemma {:induction false} FullyCovered(cargos: seq<Row>, dinero: int)
    requires NonNegative(cargos) && dinero >= Total(cargos)
    ensures var s := Allocate(cargos, dinero);
      && s.credito == dinero - Total(cargos)
      && forall i | 0 <= i < |cargos| :: s.lines[i].estatus == Pagado && s.lines[i].falta == 0
  {
    if |cargos| > 0 {
      TotalNonNegative(cargos[1..]);
      FullyCovered(cargos[1..], dinero - cargos[0].monto);
    }
  }

  /** Once an entry falls short of `Pagado`, the pool is empty: no credit is
      left at the end. */
  lemma {:induction false} ShortfallEmptiesPool(cargos: seq<Row>, dinero: int, i: nat)
    requires NonNegative(cargos) && dinero >= 0
    requires i < |cargos| && Allocate(cargos, dinero).lines[i].estatus != Pagado
    ensures Allocate(cargos, dinero).credito == 0
  {
    var step := Settle(cargos[0], dinero);
    var rest := Allocate(cargos[1..], step.dinero);
    assert NonNegative(cargos[1..]);
    if i == 0 {
      NoPayments(cargos[1..]);
    } else {
      assert rest.lines[i - 1] == Allocate(cargos, dinero).lines[i];
      ShortfallEmptiesPool(cargos[1..], step.dinero, i - 1);
    }
  }

  /** Statuses follow the pattern `Pagado*`, at most one `Parcial`, then only
      `Adeudo` or zero-amount `Pagado`: after an entry falls short, no later
      positive charge is covered. */
  lemma {:induction false} StatusOrder(cargos: seq<Row>, dinero: int, i: nat, j: nat)
    requires NonNegative(cargos) && dinero >= 0
    requires i < j < |cargos| && Allocate(cargos, dinero).lines[i].estatus != Pagado
    ensures var l := Allocate(cargos, dinero).lines[j];
      l.estatus == Adeudo || (l.estatus == Pagado && cargos[j].monto == 0)
  {
    var step := Settle(cargos[0], dinero);
    AllocateTail(cargos, dinero, j);
    assert cargos[j] == cargos[1..][j - 1];
    NonNegativeTail(cargos);
    if i == 0 {
      assert Allocate(cargos, dinero).lines[0] == step.line;
      assert step.dinero == 0;
      NoPaymentsAt(cargos[1..], j - 1);
    } else {
      AllocateTail(cargos, dinero, i);
      StatusOrder(cargos[1..], step.dinero, i - 1, j - 1);
    }
  }

  /** Entry `k > 0` of a statement is entry `k - 1` of the statement of the
      remaining charges, drawn from the pool the first charge leaves. */
  lemma AllocateTail(cargos: seq<Row>, dinero: int, k: nat)
    requires 0 < k < |cargos|
    ensures Allocate(cargos, dinero).lines[k]
      == Allocate(cargos[1..], Settle(cargos[0], dinero).dinero).lines[k - 1]
  {
  }

  /** One entry of a statement drawn from an empty pool. */
  lemma NoPaymentsAt(cargos: seq<Row>, k: nat)
    requires NonNegative(cargos) && k < |cargos|
    ensures var l := Allocate(cargos, 0).lines[k];
      l.estatus == Adeudo || (l.estatus == Pagado && cargos[k].monto == 0)
  {
    NoPayments(cargos);
  }

  /** With non-negative amounts, what is still owed is the shortfall of the pool
      against the total charged, and the credit left is its surplus. */
  lemma {:induction false} FaltaIsShortfall(cargos: seq<Row>, dinero: int)
    requires NonNegative(cargos) && dinero >= 0
    ensures var s := Allocate(cargos, dinero);
      && TotalFalta(s.lines) == (if Total(cargos) > dinero then Total(cargos) - dinero else 0)
      && s.credito == (if dinero > Total(cargos) then dinero - Total(cargos) else 0)
  {
    if |cargos| > 0 {
      var step := Settle(cargos[0], dinero);
      TotalNonNegative(cargos[1..]);
      FaltaIsShortfall(cargos[1..], step.dinero);
    }
  }

  /** The total owed on a member's statement is the positive part of the balance,
      and the unallocated credit is the positive part of its opposite. */
  lemma FaltaIsPositiveSaldo(rows: seq<Row>)
    requires NonNegative(rows)
    ensures var s := EstadoDeCuenta(rows);
      && TotalFalta(s.lines) == (if Saldo(rows) > 0 then Saldo(rows) else 0)
      && s.credito == (if Saldo(rows) < 0 then -Saldo(rows) else 0)
  {
    OfTipoNonNegative(rows, Cargo);
    OfTipoNonNegative(rows, Abono);
    TotalNonNegative(Abonos(rows));
    FaltaIsShortfall(Cargos(rows), Total(Abonos(rows)));
  }

  /** A statement whose entries are all `Pagado` owes nothing. */
  lemma {:induction false} AllPagadoOwesNothing(lines: seq<Line>)
    requires forall i | 0 <= i < |lines| :: lines[i].estatus == Pagado ==> lines[i].falta == 0
    requires forall i | 0 <= i < |lines| :: lines[i].estatus == Pagado
    ensures TotalFalta(lines) == 0
  {
    if |lines| > 0 {
      AllPagadoOwesNothing(lines[1..]);
    }
  }

  /** The indicator reads "A Plomo" exactly when every entry of the statement
      is `Pagado`. */
  lemma APlomoIffAllPagado(rows: seq<Row>)
    requires NonNegative(rows)
    ensures var s := EstadoDeCuenta(rows);
      IndicadorDe(Saldo(rows)).APlomo? <==> forall i | 0 <= i < |s.lines| :: s.lines[i].estatus == Pagado
  {
    var s := EstadoDeCuenta(rows);
    OfTipoNonNegative(rows, Cargo);
    OfTipoNonNegative(rows, Abono);
    TotalNonNegative(Abonos(rows));
    AllocateBounds(Cargos(rows), Total(Abonos(rows)));
    FaltaIsPositiveSaldo(rows);
    if Saldo(rows) <= 0 {
      FullyCovered(Cargos(rows), Total(Abonos(rows)));
    }
    if forall i | 0 <= i < |s.lines| :: s.lines[i].estatus == Pagado {
      AllPagadoOwesNothing(s.lines);
    }
  }

  /** A row whose kind is neither `Cargo` nor `Abono` changes nothing on the
      statement. */
  lemma EstadoOtroIgnored(a: seq<Row>, o: Row, b: seq<Row>)
    requires o.tipo.Otro?
    ensures EstadoDeCuenta(a + [o] + b) == EstadoDeCuenta(a + b)
  {
    OtroIgnored(a, o, b);
  }
}
