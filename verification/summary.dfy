/** The global debt summary: the treasury sheet grouped by member id, each
    group reduced to charges minus payments.
 */
module DebtSummary {
  import opened Treasury

  /** The member ids that occur in the rows. */
  function Ids(rows: seq<Row>): set<string>
  {
    set r | r in rows :: r.idH
  }

  /** Add one row's signed amount to its member's entry, creating the entry
      when the member has none yet. */
  function Post(m: map<string, int>, r: Row): (m': map<string, int>)
    ensures m'.Keys == m.Keys + {r.idH}
  {
    m[r.idH := (if r.idH in m then m[r.idH] else 0) + Signed(r)]
  }

  /** One pass over the sheet accumulating a balance per member id. */
  function GroupBalances(rows: seq<Row>): (m: map<string, int>)
    ensures m.Keys == Ids(rows)
  {
    if |rows| == 0 then map[]
    else
      assert Ids(rows) == Ids(rows[1..]) + {rows[0].idH} by {
        assert forall r :: r in rows <==> r == rows[0] || r in rows[1..];
      }
      Post(GroupBalances(rows[1..]), rows[0])
  }

  /** A member absent from the rows has no rows of its own. */
  lemma AbsentMemberHasNoRows(rows: seq<Row>, id: string)
    requires id !in Ids(rows)
    ensures MemberRows(rows, id) == []
  {
  }

  /** One step of the fold: the head row adds its signed amount to its own
      member's entry and leaves the other entries alone. */
  lemma GroupBalancesCons(rows: seq<Row>, id: string)
    requires |rows| > 0 && id in GroupBalances(rows)
    ensures var tail := GroupBalances(rows[1..]);
      GroupBalances(rows)[id]
        == (if id in tail then tail[id] else 0) + (if rows[0].idH == id then Signed(rows[0]) else 0)
    ensures rows[0].idH != id ==> id in GroupBalances(rows[1..])
  {
  }

  /** One step of a member's balance: the head row counts only if it is theirs. */
  lemma MemberSaldoCons(rows: seq<Row>, id: string)
    requires |rows| > 0
    ensures Saldo(MemberRows(rows, id))
      == (if rows[0].idH == id then Signed(rows[0]) else 0) + Saldo(MemberRows(rows[1..], id))
  {
    MemberRowsCons(rows, id);
    if rows[0].idH == id {
      SaldoCons(rows[0], MemberRows(rows[1..], id));
    }
  }

  /** A member's balance accumulated row by row over the whole sheet, without
      selecting the member's rows first. */
  function MemberSaldo(rows: seq<Row>, id: string): int
  {
    if |rows| == 0 then 0
    else (if rows[0].idH == id then Signed(rows[0]) else 0) + MemberSaldo(rows[1..], id)
  }

  /** Accumulating row by row gives the balance of the member's selected rows. */
  lemma {:induction false} MemberSaldoIsSaldo(rows: seq<Row>, id: string)
    ensures MemberSaldo(rows, id) == Saldo(MemberRows(rows, id))
  {
    if |rows| > 0 {
      MemberSaldoCons(rows, id);
      MemberSaldoIsSaldo(rows[1..], id);
    }
  }

  /** The summary entry of a member is that member's row-by-row balance. */
  lemma {:induction false} GroupBalancesIsMemberSaldo(rows: seq<Row>, id: string)
    requires id in GroupBalances(rows)
    ensures GroupBalances(rows)[id] == MemberSaldo(rows, id)
  {
    GroupBalancesCons(rows, id);
    if id in GroupBalances(rows[1..]) {
      GroupBalancesIsMemberSaldo(rows[1..], id);
    } else {
      AbsentMemberHasNoRows(rows[1..], id);
      MemberSaldoIsSaldo(rows[1..], id);
    }
  }

  /** Each entry of the summary is the balance the member's own dashboard
      computes from that member's rows alone (the entries themselves are the
      member ids of the sheet, by `GroupBalances`). */
  lemma {:induction false} SummaryMatchesMember(rows: seq<Row>, id: string)
    requires id in GroupBalances(rows)
    ensures GroupBalances(rows)[id] == Saldo(MemberRows(rows, id))
  {
    GroupBalancesIsMemberSaldo(rows, id);
    MemberSaldoIsSaldo(rows, id);
  }
}
