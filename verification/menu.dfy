/** The navigation menu each role sees. Roles and options are the literal texts
    of the directory's `Rol` column and of the sidebar.
 */
module Menu {

  /** The options every user sees, first and in this order. */
  const Basico: seq<string> := ["Mi Tablero", "Detalle Tesorería"]

  /** The roles that get options beyond the basic ones. */
  const Oficiales: set<string> :=
    {"Secretario", "Tesorero", "Hospitalario", "Primer Vigilante", "Segundo Vigilante", "Venerable Maestro"}

  /** The extra options of a role, in the order they are shown. */
  function Extras(rol: string): seq<string>
  {
    if rol == "Secretario" then
      ["OFICIAL: Secretaría", "ADMIN: Alta HH:.", "CONSULTA: Cápitas Global", "ADMIN: Mantenimiento"]
    else if rol == "Tesorero" then
      ["OFICIAL: Tesorería", "CONSULTA: Asistencia Global", "ADMIN: Mantenimiento"]
    else if rol == "Hospitalario" then
      ["CONSULTA: Asistencia Global", "CONSULTA: Expedientes"]
    else if rol == "Primer Vigilante" || rol == "Segundo Vigilante" then
      ["CONSULTA: Cápitas Global", "CONSULTA: Asistencia Global", "CONSULTA: Expedientes"]
    else if rol == "Venerable Maestro" then
      ["CONSULTA: Maestro (Total)", "CONSULTA: Expedientes", "CONSULTA: Cápitas Global",
       "CONSULTA: Asistencia Global", "ADMIN: Mantenimiento"]
    else []
  }

  /** The menu of a role: the basic options, then the role's own. */
  function MenuPorRol(rol: string): (r: seq<string>)
    ensures |r| >= 2 && r[..2] == Basico
    ensures rol !in Oficiales ==> r == Basico
    ensures rol in Oficiales ==> |r| > 2
  {
    Basico + Extras(rol)
  }

  /** No option is listed twice in any menu. */
  lemma MenuHasNoDuplicates(rol: string)
    ensures var r := MenuPorRol(rol);
      forall i, j | 0 <= i < j < |r| :: r[i] != r[j]
  {
    // within every menu the options have pairwise different lengths
    var r := MenuPorRol(rol);
    forall i, j | 0 <= i < j < |r|
      ensures r[i] != r[j]
    {
      assert |r[i]| != |r[j]|;
    }
  }

  /** The treasury office is on the treasurer's menu and on no other. */
  lemma TesoreriaOnlyForTesorero(rol: string)
    ensures "OFICIAL: Tesorería" in MenuPorRol(rol) <==> rol == "Tesorero"
  {
  }

  /** The secretary's office and the member-registration form are on the
      secretary's menu and on no other. */
  lemma SecretariaOnlyForSecretario(rol: string)
    ensures "OFICIAL: Secretaría" in MenuPorRol(rol) <==> rol == "Secretario"
    ensures "ADMIN: Alta HH:." in MenuPorRol(rol) <==> rol == "Secretario"
  {
    // the office names differ in their tenth letter
    var r := MenuPorRol(rol);
    forall i | 0 <= i < |r| && r[i] == "OFICIAL: Secretaría"
      ensures rol == "Secretario"
    {
      assert r[i][9] == 'S';
    }
  }

  /** The maintenance screen is reachable by the secretary, the treasurer and
      the master only. */
  lemma MantenimientoRoles(rol: string)
    ensures "ADMIN: Mantenimiento" in MenuPorRol(rol) <==>
      rol in {"Secretario", "Tesorero", "Venerable Maestro"}
  {
  }

  /** The member files are readable by the almoner, the two wardens and the
      master only. */
  lemma ExpedientesRoles(rol: string)
    ensures "CONSULTA: Expedientes" in MenuPorRol(rol) <==>
      rol in {"Hospitalario", "Primer Vigilante", "Segundo Vigilante", "Venerable Maestro"}
  {
  }
}
