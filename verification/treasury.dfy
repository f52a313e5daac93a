/** Rows of the TESORERIA sheet and the sums the dashboard takes over them.

    Every amount is an integer number of cents; the numeric coercion of the
    `Monto` column is assumed to have happened before a row reaches this model.
 */
module Treasury {

  /** The `Tipo` column: a charge, a payment, or any other text. A cell reading
      exactly "Cargo" or "Abono" is always `Cargo` or `Abono` (see `ParseTipo`),
      so `Otro` never holds either of those two texts. */
  datatype Tipo = Cargo | Abono | Otro(text: string)

  /** The kind of a `Tipo` cell, compared as exact text as `df['Tipo'] == 'Cargo'`
      and `df['Tipo'] == 'Abono'` do. */
  function ParseTipo(cell: string): (t: Tipo)
    ensures t == Cargo <==> cell == "Cargo"
    ensures t == Abono <==> cell == "Abono"
    ensures t.Otro? ==> t.text == cell && cell != "Cargo" && cell != "Abono"
  {
    if cell == "Cargo" then Cargo
    else if cell == "Abono" then Abono
    else Otro(cell)
  }

  /** One treasury row: date, member id (compared as text), concept, kind, amount. */
  datatype Row = Row(fecha: string, idH: string, concepto: string, tipo: Tipo, monto: int)

  /** Sum of the `Monto` column over `rows`. */
  function Total(rows: seq<Row>): int
  {
    if |rows| == 0 then 0 else rows[0].monto + Total(rows[1..])
  }

  /** The rows of kind `t`, in recorded order (the `df[df['Tipo'] == t]` selection). */
  function OfTipo(rows: seq<Row>, t: Tipo): (r: seq<Row>)
    ensures |r| <= |rows|
    ensures forall i | 0 <= i < |r| :: r[i].tipo == t
    ensures forall x {:trigger x in r} {:trigger x in rows} :: x in r <==> x in rows && x.tipo == t
    // every copy of a row of kind `t` is kept, and nothing else
    ensures forall x {:trigger multiset(r)[x]} {:trigger multiset(rows)[x]} ::
      multiset(r)[x] == (if x.tipo == t then multiset(rows)[x] else 0)
  {
    if |rows| == 0 then []
    else
      assert rows == [rows[0]] + rows[1..];
      if rows[0].tipo == t then [rows[0]] + OfTipo(rows[1..], t)
      else OfTipo(rows[1..], t)
  }

  /** The charges of a member's rows. */
  function Cargos(rows: seq<Row>): seq<Row>
  {
    OfTipo(rows, Cargo)
  }

  /** The payments of a member's rows. */
  function Abonos(rows: seq<Row>): seq<Row>
  {
    OfTipo(rows, Abono)
  }

  /** The balance: total charged minus total paid (positive means money owed). */
  function Saldo(rows: seq<Row>): int
  {
    Total(Cargos(rows)) - Total(Abonos(rows))
  }

  /** What one row contributes to the balance. */
  function Signed(r: Row): int
  {
    match r.tipo
    case Cargo => r.monto
    case Abono => -r.monto
    case Otro(_) => 0
  }

  /** The rows of one member (the `df['ID_H'] == id_h` selection). */
  function MemberRows(rows: seq<Row>, id: string): (r: seq<Row>)
    ensures |r| <= |rows|
    ensures forall i | 0 <= i < |r| :: r[i].idH == id
    ensures forall x {:trigger x in r} {:trigger x in rows} :: x in r <==> x in rows && x.idH == id
    // every copy of a row of the member is kept, and nothing else
    ensures forall x {:trigger multiset(r)[x]} {:trigger multiset(rows)[x]} ::
      multiset(r)[x] == (if x.idH == id then multiset(rows)[x] else 0)
  {
    if |rows| == 0 then []
    else
      assert rows == [rows[0]] + rows[1..];
      if rows[0].idH == id then [rows[0]] + MemberRows(rows[1..], id)
      else MemberRows(rows[1..], id)
  }

  /** Every amount is non-negative (the dashboard's forms: payments have a
      minimum of 0, dues are a fixed 450). */
  predicate NonNegative(rows: seq<Row>)
  {
    forall i | 0 <= i < |rows| :: rows[i].monto >= 0
  }

  /** The balance of a row sequence grows by the head row's signed amount. */
  lemma SaldoCons(r: Row, rows: seq<Row>)
    ensures Saldo([r] + rows) == Signed(r) + Saldo(rows)
  {
    assert ([r] + rows)[1..] == rows;
  }

  /** Selecting by kind distributes over concatenation. */
  lemma {:induction false} OfTipoAppend(a: seq<Row>, b: seq<Row>, t: Tipo)
    ensures OfTipo(a + b, t) == OfTipo(a, t) + OfTipo(b, t)
  {
    if |a| == 0 {
      assert a + b == b;
    } else {
      assert (a + b)[1..] == a[1..] + b;
      OfTipoAppend(a[1..], b, t);
    }
  }

  /** One step of the member selection. */
  lemma MemberRowsCons(rows: seq<Row>, id: string)
    requires |rows| > 0
    ensures MemberRows(rows, id)
      == (if rows[0].idH == id then [rows[0]] + MemberRows(rows[1..], id) else MemberRows(rows[1..], id))
  {
  }

  /** Selecting a member distributes over concatenation. */
  lemma {:induction false} MemberRowsAppend(a: seq<Row>, b: seq<Row>, id: string)
    ensures MemberRows(a + b, id) == MemberRows(a, id) + MemberRows(b, id)
  {
    if |a| == 0 {
      assert a + b == b;
    } else {
      assert (a + b)[1..] == a[1..] + b;
      MemberRowsAppend(a[1..], b, id);
    }
  }

  /** A row of another member, inserted anywhere, does not change a member's rows. */
  lemma OtherMemberIgnored(a: seq<Row>, r: Row, b: seq<Row>, id: string)
    requires r.idH != id
    ensures MemberRows(a + [r] + b, id) == MemberRows(a + b, id)
  {
    assert a + [r] + b == a + ([r] + b);
    assert ([r] + b)[1..] == b;
    assert MemberRows([r] + b, id) == MemberRows(b, id);
    MemberRowsAppend(a, [r] + b, id);
    MemberRowsAppend(a, b, id);
  }

  /** A row whose kind is neither `Cargo` nor `Abono` changes neither the charges,
      nor the payments, nor the balance, wherever it is inserted. */
  lemma OtroIgnored(a: seq<Row>, o: Row, b: seq<Row>)
    requires o.tipo.Otro?
    ensures Cargos(a + [o] + b) == Cargos(a + b)
    ensures Abonos(a + [o] + b) == Abonos(a + b)
    ensures Saldo(a + [o] + b) == Saldo(a + b)
  {
    assert a + [o] + b == a + ([o] + b);
    assert ([o] + b)[1..] == b;
    assert OfTipo([o] + b, Cargo) == OfTipo(b, Cargo);
    assert OfTipo([o] + b, Abono) == OfTipo(b, Abono);
    OfTipoAppend(a, [o] + b, Cargo);
    OfTipoAppend(a, b, Cargo);
    OfTipoAppend(a, [o] + b, Abono);
    OfTipoAppend(a, b, Abono);
  }

  /** Dropping the first row keeps amounts non-negative. */
  lemma NonNegativeTail(rows: seq<Row>)
    requires NonNegative(rows) && |rows| > 0
    ensures NonNegative(rows[1..])
  {
  }

  /** Selecting a kind keeps amounts non-negative. */
  lemma OfTipoNonNegative(rows: seq<Row>, t: Tipo)
    requires NonNegative(rows)
    ensures NonNegative(OfTipo(rows, t))
  {
  }

  /** A sum of non-negative amounts is non-negative. */
  lemma {:induction false} TotalNonNegative(rows: seq<Row>)
    requires NonNegative(rows)
    ensures Total(rows) >= 0
  {
    if |rows| > 0 {
      TotalNonNegative(rows[1..]);
    }
  }
}
