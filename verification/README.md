# Portal del Taller — member ledger reconciliation

A Dafny model of the bookkeeping core of the lodge dashboard in `app.py`. The
dashboard keeps a treasury sheet (TESORERIA) of rows with a date, a member id
(`ID_H`), a concept, a kind (`Tipo`: `Cargo` for a charge, `Abono` for a
payment) and an amount (`Monto`). The "Mi Tablero" view of a member:

- computes the balance `saldo` = total charged − total paid;
- pools every payment of the member into one amount `dinero`;
- walks the charges in recorded order. Each charge is `Pagado` when the pool
  covers it (the pool shrinks by the charge). It is `Parcial` when the pool is
  positive but short (the rest is owed and the pool empties). Otherwise it is
  `Adeudo` for its whole amount;
- shows one statement entry per charge: date, concept, status and the amount
  still owed (`Falta`).

The model also covers:

- the global debt summary, which groups the sheet by member id;
- the role-to-menu table;
- the two directory filters: the meeting call list and the wardens' view of
  member files;
- the id given to a new member.

Modules, one per concern:

- `Treasury` (treasury.dfy): rows, sums, selection by kind and by member.
- `Reconcile` (reconcile.dfy): the allocation loop, the statement and the
  balance indicator.
- `FifoDrawDown` (fifo.dfy): a per-payment cursor draw-down, proved to agree
  with the pooled loop.
- `DebtSummary` (summary.dfy): the grouped balances.
- `Menu` (menu.dfy): the menu of each role.
- `Directory` (directory.dfy): the call list, the wardens' view and the next id.

Amounts are integers (cents). Every function is total. No contract demands
non-negative amounts of a caller. The properties that need them take
`NonNegative` as a hypothesis, because the loop itself accepts any amount.

The loop keeps no per-payment cursor and no record of which payment paid
which charge; the model follows the code. `FifoDrawDown` adds the
oldest-charge-first draw-down with a cursor over the payments. For
non-negative amounts, `FifoAgreesWithPool` proves that the cursor gives the
same entries and the same left-over credit as the pooled loop.

A charge of amount 0 is `Pagado` even when the pool is empty, because the
test is `dinero >= deuda`. So "no payments" makes every *positive* charge
`Adeudo`, not every charge.

## Model

| member | source | states |
|---|---|---|
| Treasury.ParseTipo | app.py:134 | a `Tipo` cell is a charge exactly when it reads "Cargo", a payment exactly when it reads "Abono", and any other text is kept as `Otro` |
| Treasury.OfTipo | app.py:161-162 | the charges (payments) are exactly the rows of that kind: every copy of such a row is kept, as many times as it occurs in the sheet, and no other row |
| Treasury.OfTipoAppend | app.py:161-162 | the selection by kind keeps recorded order: selecting from two consecutive parts of the sheet gives the two selections one after the other |
| Treasury.MemberRows | app.py:120-121 | a member's rows are exactly the rows carrying that member id: every copy of such a row is kept, as many times as it occurs, and no other row |
| Treasury.MemberRowsAppend | app.py:120-121 | the member selection keeps recorded order: selecting from two consecutive parts of the sheet gives the two selections one after the other |
| Treasury.OtherMemberIgnored | app.py:120-121 | a row of another member, inserted anywhere in the sheet, leaves a member's rows unchanged |
| Treasury.OtroIgnored | app.py:133-134 | a row whose kind is neither `Cargo` nor `Abono`, inserted anywhere, changes neither the charges, the payments nor the balance |
| Reconcile.Settle | app.py:167-177 | one charge against the pool: date and concept copied; the amount credited plus the pool left equals the pool before; `Pagado` exactly when the pool covers the charge, `Parcial` exactly when it is positive but short; with non-negative amounts `0 <= Falta <= deuda`, the pool does not grow, and it is empty after any entry that is not `Pagado` |
| Reconcile.Allocate | app.py:163-178 | one entry per charge, in order, with date and concept copied; conservation: total charged minus total still owed, plus the credit left, equals the pool; a non-negative pool never ends negative |
| Reconcile.EstadoDeCuenta | app.py:160-178 | one entry per `Cargo` row, and the balance of line 134 equals the total still owed minus the unallocated credit |
| Reconcile.IndicadorDe | app.py:144-147 | the indicator reads "A Plomo" exactly when the balance is not positive, and otherwise shows the positive balance |
| Reconcile.TableroDe | app.py:118-147 | a member's dashboard: "A Plomo" exactly when the balance of their own rows is not positive, otherwise "Saldo Pendiente" showing exactly that balance; one statement entry per charge of theirs, and that balance equals the total still owed on the statement minus its unallocated credit |
| Reconcile.TableroOtherMemberIgnored | app.py:118-134 | a row of another member, inserted anywhere in the sheet, changes nothing on a member's dashboard: indicator and statement are the same |
| Reconcile.AllocateBounds | app.py:167-177 | with non-negative amounts every entry owes between 0 and its charge; `Pagado` iff nothing owed, `Parcial` iff part owed, `Adeudo` iff the whole positive charge owed; the final pool lies between 0 and the initial pool |
| Reconcile.NoPayments | app.py:163-177 | with no payments every positive charge is `Adeudo` for its full amount, every zero charge `Pagado`, and no credit is left |
| Reconcile.FullyCovered | app.py:163-177 | when the payments cover the total charged, every entry is `Pagado` with nothing owed and the credit left is the surplus |
| Reconcile.ShortfallEmptiesPool | app.py:170-177 | once any entry is not `Pagado`, the pool ends empty |
| Reconcile.StatusOrder | app.py:170-177 | after an entry that is not `Pagado`, every later entry is `Adeudo` or a zero-amount `Pagado`: statuses run `Pagado*`, at most one `Parcial`, then no covered positive charge |
| Reconcile.FaltaIsShortfall | app.py:163-177 | with non-negative amounts the total owed is the shortfall of the pool against the total charged, and the credit left is its surplus |
| Reconcile.FaltaIsPositiveSaldo | app.py:134-178 | the sum of `Falta` over the statement is `max(0, saldo)` and the unallocated credit is `max(0, -saldo)` |
| Reconcile.APlomoIffAllPagado | app.py:144-177 | the indicator reads "A Plomo" exactly when every statement entry is `Pagado` |
| Reconcile.EstadoOtroIgnored | app.py:161-178 | a row of any other kind leaves the statement unchanged |
| FifoDrawDown.FifoAgreesWithPool | app.py:163-177 | pooling all payments gives the same entries and credit as drawing each charge, in order, from the payments one by one |
| FifoDrawDown.EstadoIsFifo | app.py:160-178 | a member's statement is the oldest-charge-first draw-down of their charges from their payments in recorded order |
| DebtSummary.GroupBalances | app.py:410-412 | the summary has an entry for exactly the member ids occurring in the sheet |
| DebtSummary.GroupBalancesIsMemberSaldo | app.py:410-412 | each summary entry is the member's balance accumulated row by row over the whole sheet |
| DebtSummary.MemberSaldoIsSaldo | app.py:134 | accumulating a member's signed amounts row by row over the sheet gives the balance of the member's selected rows |
| DebtSummary.SummaryMatchesMember | app.py:410-412 | each summary entry equals the balance computed from that member's rows alone, as the dashboard does at line 134 |
| Menu.MenuPorRol | app.py:30-54 | every menu starts with "Mi Tablero", "Detalle Tesorería"; a role without an office (e.g. "Miembro") gets exactly those two; an office gets more |
| Menu.MenuHasNoDuplicates | app.py:30-54 | no option appears twice in any role's menu |
| Menu.TesoreriaOnlyForTesorero | app.py:30-54 | "OFICIAL: Tesorería" is on a menu exactly when the role is "Tesorero" |
| Menu.SecretariaOnlyForSecretario | app.py:30-54 | "OFICIAL: Secretaría" and "ADMIN: Alta HH:." are on a menu exactly when the role is "Secretario" |
| Menu.MantenimientoRoles | app.py:30-54 | "ADMIN: Mantenimiento" is on the menus of the secretary, the treasurer and the master only |
| Menu.ExpedientesRoles | app.py:30-54 | "CONSULTA: Expedientes" is on the menus of the almoner, both wardens and the master only |
| Directory.Convocados | app.py:208-210 | the call list holds exactly the members whose current degree is at least the meeting's, each as many times as it occurs in the directory, so its length is the count displayed |
| Directory.ConvocadosAppend | app.py:208 | the call list keeps directory order: the list of two consecutive parts of the directory is the two lists one after the other |
| Directory.ConvocadosNested | app.py:208 | filtering a lower degree's call list for a higher degree gives the higher degree's call list |
| Directory.ConvocadosAll | app.py:208 | when everyone has the degree, the call list is the whole directory, in order |
| Directory.Visibles | app.py:366-372 | the first warden sees exactly the degree-2 files, the second warden exactly the degree-1 files, any other role the whole directory |
| Directory.WardenViews | app.py:366-372 | no warden sees a master's file and no file is shown to both wardens |
| Directory.MaxNumero | app.py:324-325 | the largest numeric id is one of the ids and bounds all numeric ids; there is none exactly when no id is numeric |
| Directory.NextId | app.py:322-325 | an empty directory gives 1; a non-empty one with no numeric id fails; otherwise the id exceeds every numeric id in use and is one more than an id in use |

## Left out

- Streamlit rendering, forms, styling and session state (login, role, selected member): presentation only. The model takes the member id and role as parameters.
- The reversed display order of the statement (line 180): presentation only; the model keeps recorded order.
- Google Sheets access: the sheets are input sequences of records. The writes are out of scope. These are mass dues charges (line 269), individual payments (296-297), expenses (308), attendance (219-220) and new directory rows (348-352).
- Password hashing and the login check (lines 13-17, 69-94): a foreign library call (SHA-256).
- pandas numeric coercion of `Monto` (non-numeric becoming 0) and floating point: amounts are integer cents, coerced before they reach the model.
- Member ids are text, so the `astype(str)` of lines 120-121 is the identity here. Line 410 groups the raw `ID_H` value, with no conversion to text. The model assumes that equal id values have equal text. Values such as 5 and 5.0 would form one group at line 410 but two different ids at line 121; that case is not modelled.
- The "Detalle Tesorería" table (line 190) is the payments of one member's rows, `Abonos(MemberRows(rows, id))`. It has no member of its own.
- Attendance percentages (lines 136-140, 233-238), the dues estimate `int(saldo/450)` (line 145) and the cash-book totals (lines 277-279, 425-427): display-only floating-point work.
- The annual-close screen (lines 433-436): it has no logic.
- Directory.NextId: ids are integers or text. A fractional numeric id, which `int()` would truncate, is not modelled. A missing `ID_H` column is not modelled either.
- Directory.Convocados: the contract states membership and multiplicity, hence the length displayed at line 210. Order is stated by the lemmas `ConvocadosAppend`, `ConvocadosAll` and `ConvocadosNested`, not by the function's own contract.
- Directory.Convocados: the degree is typed `int`. A non-numeric `Grado_Actual` cell makes the `>=` comparison of line 208 raise; an empty cell reads as `""`. That failure is not modelled.
- FifoDrawDown.FifoReconcile: it does not record which payments funded each charge, because the dashboard never does.
