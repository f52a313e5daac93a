/** The DIRECTORIO sheet: who is called to a meeting, which files a warden may
    read, and the id given to a new member.
 */
module Directory {

  /** The `ID_H` cell after numeric coercion: a number, or text that coerces to
      "not a number". */
  datatype IdCell = Numero(n: int) | Texto(text: string)

  /** One directory row: id, full name, current degree (1 to 3), status. */
  datatype Hermano = Hermano(idH: IdCell, nombre: string, grado: int, estatus: string)

  /** The members called to a meeting of degree `grado`: those whose current
      degree is at least `grado`, in directory order. */
  function Convocados(dir: seq<Hermano>, grado: int): (r: seq<Hermano>)
    ensures |r| <= |dir|
    ensures forall h {:trigger h in r} {:trigger h in dir} :: h in r <==> h in dir && h.grado >= grado
    // every copy of a selected row is kept, and nothing else
    ensures forall h {:trigger multiset(r)[h]} {:trigger multiset(dir)[h]} ::
      multiset(r)[h] == (if h.grado >= grado then multiset(dir)[h] else 0)
  {
    if |dir| == 0 then []
    else
      assert dir == [dir[0]] + dir[1..];
      if dir[0].grado >= grado then [dir[0]] + Convocados(dir[1..], grado)
      else Convocados(dir[1..], grado)
  }

  /** The members of exactly degree `grado`, in directory order. */
  function DeGrado(dir: seq<Hermano>, grado: int): (r: seq<Hermano>)
    ensures |r| <= |dir|
    ensures forall h {:trigger h in r} {:trigger h in dir} :: h in r <==> h in dir && h.grado == grado
    // every copy of a selected row is kept, and nothing else
    ensures forall h {:trigger multiset(r)[h]} {:trigger multiset(dir)[h]} ::
      multiset(r)[h] == (if h.grado == grado then multiset(dir)[h] else 0)
  {
    if |dir| == 0 then []
    else
      assert dir == [dir[0]] + dir[1..];
      if dir[0].grado == grado then [dir[0]] + DeGrado(dir[1..], grado)
      else DeGrado(dir[1..], grado)
  }

  /** The member files a role may browse: the first warden sees the fellows
      (degree 2), the second warden the apprentices (degree 1), everyone else
      the whole directory. */
  function Visibles(rol: string, dir: seq<Hermano>): (r: seq<Hermano>)
    ensures rol == "Primer Vigilante" ==>
      forall h {:trigger h in r} {:trigger h in dir} :: h in r <==> h in dir && h.grado == 2
    ensures rol == "Segundo Vigilante" ==>
      forall h {:trigger h in r} {:trigger h in dir} :: h in r <==> h in dir && h.grado == 1
    ensures rol != "Primer Vigilante" && rol != "Segundo Vigilante" ==> r == dir
  {
    if rol == "Primer Vigilante" then DeGrado(dir, 2)
    else if rol == "Segundo Vigilante" then DeGrado(dir, 1)
    else dir
  }

  /** A warden never sees a master's file, and no file is shown to both wardens. */
  lemma WardenViews(dir: seq<Hermano>, h: Hermano)
    ensures h in Visibles("Primer Vigilante", dir) ==> h.grado != 3
    ensures h in Visibles("Segundo Vigilante", dir) ==> h.grado != 3
    ensures !(h in Visibles("Primer Vigilante", dir) && h in Visibles("Segundo Vigilante", dir))
  {
  }

  /** Calling degree `g2` from a list already called for a lower degree `g1`
      gives the list called for `g2` directly. */
  lemma {:induction false} ConvocadosNested(dir: seq<Hermano>, g1: int, g2: int)
    requires g1 <= g2
    ensures Convocados(Convocados(dir, g1), g2) == Convocados(dir, g2)
  {
    if |dir| > 0 {
      ConvocadosNested(dir[1..], g1, g2);
      if dir[0].grado >= g1 {
        assert ([dir[0]] + Convocados(dir[1..], g1))[1..] == Convocados(dir[1..], g1);
      }
    }
  }

  /** The call list of a directory split in two is the call list of the first
      part followed by that of the second: the directory order is kept. */
  lemma {:induction false} ConvocadosAppend(a: seq<Hermano>, b: seq<Hermano>, g: int)
    ensures Convocados(a + b, g) == Convocados(a, g) + Convocados(b, g)
  {
    if |a| == 0 {
      assert a + b == b;
    } else {
      assert (a + b)[1..] == a[1..] + b;
      ConvocadosAppend(a[1..], b, g);
    }
  }

  /** When every member has at least degree `g`, everyone is called, in order. */
  lemma {:induction false} ConvocadosAll(dir: seq<Hermano>, g: int)
    requires forall i | 0 <= i < |dir| :: dir[i].grado >= g
    ensures Convocados(dir, g) == dir
  {
    if |dir| > 0 {
      ConvocadosAll(dir[1..], g);
      assert dir == [dir[0]] + dir[1..];
    }
  }

  /** The largest numeric id, if any. */
  datatype MaxId = SinNumero | Max(n: int)

  function MaxNumero(ids: seq<IdCell>): (m: MaxId)
    ensures m.SinNumero? <==> forall i | 0 <= i < |ids| :: ids[i].Texto?
    ensures m.Max? ==> Numero(m.n) in ids
    ensures m.Max? ==> forall i | 0 <= i < |ids| && ids[i].Numero? :: ids[i].n <= m.n
  {
    if |ids| == 0 then SinNumero
    else
      var rest := MaxNumero(ids[1..]);
      match ids[0]
      case Texto(_) => rest
      case Numero(n) => if rest.SinNumero? || n >= rest.n then Max(n) else rest
  }

  /** The ids of the directory, in order. */
  function IdsOf(dir: seq<Hermano>): (ids: seq<IdCell>)
    ensures |ids| == |dir|
    ensures forall i | 0 <= i < |dir| :: ids[i] == dir[i].idH
  {
    if |dir| == 0 then [] else [dir[0].idH] + IdsOf(dir[1..])
  }

  /** The id offered to a new member, or the failure of converting a missing
      maximum to an integer when no id of a non-empty directory is numeric. */
  datatype NextIdResult = Asignado(id: int) | SinIdNumerico

  /** The next member id: one more than the largest numeric id, or 1 for an
      empty directory. */
  function NextId(dir: seq<Hermano>): (r: NextIdResult)
    ensures |dir| == 0 ==> r == Asignado(1)
    ensures r.SinIdNumerico? <==> |dir| > 0 && forall i | 0 <= i < |dir| :: dir[i].idH.Texto?
    // the new id is fresh: above every numeric id in use
    ensures r.Asignado? ==> forall i | 0 <= i < |dir| && dir[i].idH.Numero? :: dir[i].idH.n < r.id
    // and it is the least such id: one below it is in use
    ensures r.Asignado? && |dir| > 0 ==> exists i | 0 <= i < |dir| :: dir[i].idH == Numero(r.id - 1)
  {
    if |dir| == 0 then Asignado(1)
    else
      var ids := IdsOf(dir);
      match MaxNumero(ids)
      case SinNumero => SinIdNumerico
      case Max(n) =>
        assert exists i | 0 <= i < |dir| :: dir[i].idH == Numero(n) by {
          var i :| 0 <= i < |ids| && ids[i] == Numero(n);
        }
        Asignado(n + 1)
  }
}
