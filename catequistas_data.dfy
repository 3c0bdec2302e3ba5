/**
 * The catalogue of catechists (name and group) and its views: the list of
 * names, the catechists of one group, and the names grouped by group.
 */
module CatequistasData {
  import opened Seqs
  import Grupos

  datatype Catequista = Catequista(nombre: string, grupo: string)

  /** `catequistas`: four per group, plus the two of the formation team. */
  const Catequistas: seq<Catequista> := [
    Catequista("Luis \U{00C1}ngel S\U{00E1}nchez Badilla", "Ciencia"),
    Catequista("Sebasti\U{00E1}n Huertas Arce", "Ciencia"),
    Catequista("Mathias Calderon Sequeira", "Ciencia"),
    Catequista("Jefferson David Aguilar Guzman", "Ciencia"),
    Catequista("Jeaustin Emanuel Fern\U{00E1}ndez Arias", "Piedad"),
    Catequista("Sof\U{00ED}a Arce Hern\U{00E1}ndez", "Piedad"),
    Catequista("Monserrat Solano Vargas", "Piedad"),
    Catequista("Luis Felipe Mora Ram\U{00ED}rez", "Piedad"),
    Catequista("Johanna Victoria Castro Guill\U{00E9}n", "Fortaleza"),
    Catequista("Gabriel Esteban Valverde Guzm\U{00E1}n", "Fortaleza"),
    Catequista("Julissa Escalante Badilla", "Fortaleza"),
    Catequista("Steven Alpizar Gamboa", "Fortaleza"),
    Catequista("Justin Rojas Salazar", "Consejo"),
    Catequista("Ashley Rodr\U{00ED}guez Gonz\U{00E1}lez", "Consejo"),
    Catequista("Samuel Brenes Vargas", "Consejo"),
    Catequista("Mariam Astua Solano", "Consejo"),
    Catequista("Sharlyn Blanco Mora", "Entendimiento"),
    Catequista("Marco Andr\U{00E9}s Sand\U{00ED} Chinchilla", "Entendimiento"),
    Catequista("Nazareth Sof\U{00ED}a Montoya Chac\U{00F3}n", "Entendimiento"),
    Catequista("Montserrat de Los \U{00C1}ngeles Mata Madriz", "Entendimiento"),
    Catequista("Montserrat Campos Hern\U{00E1}ndez", "Sabidur\U{00ED}a"),
    Catequista("Ismael Josu\U{00E9} Rivera Quesada", "Sabidur\U{00ED}a"),
    Catequista("Sebasti\U{00E1}n Altamirano Ling", "Sabidur\U{00ED}a"),
    Catequista("Francella Fallas Castro", "Sabidur\U{00ED}a"),
    Catequista("Nashamy Araya Castell\U{00F3}n", "Temor de Dios"),
    Catequista("Karemy Guzm\U{00E1}n Cruz", "Temor de Dios"),
    Catequista("Noelia Odilie Matarrita Araya", "Temor de Dios"),
    Catequista("Amanda Cordero Trejos", "Temor de Dios"),
    Catequista("Dylan Chac\U{00F3}n Sandoval", "Formaci\U{00F3}n"),
    Catequista("Mariana Segura Piedra", "Formaci\U{00F3}n")
  ]

  /** The group of the formation team, which is not one of the seven groups. */
  const Formacion := "Formaci\U{00F3}n"

  /** `catequistas.map(c => c.nombre)`: one name per entry, same order. */
  function Nombres(cs: seq<Catequista>): (ns: seq<string>)
    ensures |ns| == |cs| && forall i | 0 <= i < |cs| :: ns[i] == cs[i].nombre
  {
    seq(|cs|, i requires 0 <= i < |cs| => cs[i].nombre)
  }

  /** `nombresCatequistas`. */
  function NombresCatequistas(): (ns: seq<string>)
    ensures |ns| == |Catequistas| && forall i | 0 <= i < |Catequistas| :: ns[i] == Catequistas[i].nombre
  {
    Nombres(Catequistas)
  }

  function GrupoOf(c: Catequista): string {
    c.grupo
  }

  function InGroup(g: string): Catequista -> bool {
    (c: Catequista) => c.grupo == g
  }

  /** The groups of a catalogue, entry by entry. */
  function GruposDe(cs: seq<Catequista>): (gs: seq<string>)
    ensures |gs| == |cs| && forall i | 0 <= i < |cs| :: gs[i] == cs[i].grupo
  {
    seq(|cs|, i requires 0 <= i < |cs| => cs[i].grupo)
  }

  /**
   * `getCatequistasPorGrupo(grupo)` over a catalogue: the entries of that
   * group, in catalogue order; none for a group nobody belongs to.
   */
  function PorGrupo(cs: seq<Catequista>, g: string): (r: seq<Catequista>)
    ensures IsSubseq(r, cs)
    ensures forall i | 0 <= i < |r| :: r[i].grupo == g
    ensures forall i | 0 <= i < |cs| && cs[i].grupo == g :: cs[i] in r
    ensures g !in GruposDe(cs) ==> r == []
  {
    FilterIsSubseq(cs, InGroup(g));
    FilterAbsent(cs, g);
    Filter(cs, InGroup(g))
  }

  lemma FilterAbsent(cs: seq<Catequista>, g: string)
    ensures g !in GruposDe(cs) ==> Filter(cs, InGroup(g)) == []
  {
    var r := Filter(cs, InGroup(g));
    if |r| > 0 {
      var j :| 0 <= j < |cs| && cs[j] == r[0];
      assert GruposDe(cs)[j] == g;
    }
  }

  /** `getCatequistasPorGrupo(grupo)` on the catalogue. */
  function GetCatequistasPorGrupo(g: string): (r: seq<Catequista>)
    ensures IsSubseq(r, Catequistas)
    ensures forall c :: c in r <==> c in Catequistas && c.grupo == g
  {
    PorGrupo(Catequistas, g)
  }

  lemma PorGrupoSnoc(cs: seq<Catequista>, c: Catequista, g: string)
    ensures PorGrupo(cs + [c], g) == PorGrupo(cs, g) + (if c.grupo == g then [c] else [])
  {
    FilterAppend(cs, [c], InGroup(g));
    assert Filter([c], InGroup(g)) == if c.grupo == g then [c] else [];
  }

  lemma NombresAppend(a: seq<Catequista>, b: seq<Catequista>)
    ensures Nombres(a + b) == Nombres(a) + Nombres(b)
  {
  }

  /** The accumulator of the `reduce` after the entries `cs`. */
  function Agrupar(cs: seq<Catequista>): map<string, seq<string>> {
    if |cs| == 0 then map[]
    else
      var acc, c := Agrupar(cs[..|cs| - 1]), cs[|cs| - 1];
      acc[c.grupo := (if c.grupo in acc then acc[c.grupo] else []) + [c.nombre]]
  }

  lemma {:induction false} AgruparMeaning(cs: seq<Catequista>)
    ensures forall g :: g in Agrupar(cs) <==> g in GruposDe(cs)
    ensures forall g | g in Agrupar(cs) :: Agrupar(cs)[g] == Nombres(PorGrupo(cs, g))
  {
    if |cs| > 0 {
      var pre, c := cs[..|cs| - 1], cs[|cs| - 1];
      assert cs == pre + [c];
      AgruparMeaning(pre);
      assert GruposDe(cs) == GruposDe(pre) + [c.grupo];
      forall g | g in Agrupar(cs) ensures Agrupar(cs)[g] == Nombres(PorGrupo(cs, g)) {
        AgruparStep(pre, c, g);
      }
    }
  }

  lemma AgruparStep(pre: seq<Catequista>, c: Catequista, g: string)
    requires g in Agrupar(pre + [c])
    requires g in Agrupar(pre) <==> g in GruposDe(pre)
    requires g in Agrupar(pre) ==> Agrupar(pre)[g] == Nombres(PorGrupo(pre, g))
    ensures Agrupar(pre + [c])[g] == Nombres(PorGrupo(pre + [c], g))
  {
    AgruparSnoc(pre, c);
    PorGrupoSnoc(pre, c, g);
    if g == c.grupo {
      AgruparSameGroup(pre, c);
    }
  }

  lemma AgruparSnoc(pre: seq<Catequista>, c: Catequista)
    ensures var acc := Agrupar(pre);
      Agrupar(pre + [c]) == acc[c.grupo := (if c.grupo in acc then acc[c.grupo] else []) + [c.nombre]]
  {
    assert (pre + [c])[..|pre|] == pre;
  }

  /** The entry of the group just met: its earlier names, then the new one. */
  lemma AgruparSameGroup(pre: seq<Catequista>, c: Catequista)
    requires c.grupo in Agrupar(pre) <==> c.grupo in GruposDe(pre)
    requires c.grupo in Agrupar(pre) ==> Agrupar(pre)[c.grupo] == Nombres(PorGrupo(pre, c.grupo))
    ensures (if c.grupo in Agrupar(pre) then Agrupar(pre)[c.grupo] else []) + [c.nombre]
         == Nombres(PorGrupo(pre, c.grupo) + [c])
  {
    NombresAppend(PorGrupo(pre, c.grupo), [c]);
  }

  /**
   * `catequistasPorGrupo`: one entry per group that occurs, listing the names
   * of that group's catechists in catalogue order.
   */
  method CatequistasPorGrupo(cs: seq<Catequista>) returns (acc: map<string, seq<string>>)
    ensures forall g :: g in acc <==> g in GruposDe(cs)
    ensures forall g | g in acc :: acc[g] == Nombres(PorGrupo(cs, g))
  {
    acc := map[];
    var i := 0;
    while i < |cs|
      invariant 0 <= i <= |cs|
      invariant acc == Agrupar(cs[..i])
    {
      var cat := cs[i];
      assert cs[..i + 1][..i] == cs[..i];
      if cat.grupo !in acc {
        acc := acc[cat.grupo := []];
      }
      acc := acc[cat.grupo := acc[cat.grupo] + [cat.nombre]];
      i := i + 1;
    }
    assert cs[..|cs|] == cs;
    AgruparMeaning(cs);
  }

  /** A group's list is as long as the number of catechists in that group. */
  lemma {:induction false} PorGrupoLength(cs: seq<Catequista>, g: string)
    ensures |PorGrupo(cs, g)| == CountKey(cs, GrupoOf, g)
  {
    if |cs| > 0 {
      var init, last := cs[..|cs| - 1], cs[|cs| - 1];
      assert cs == init + [last];
      PorGrupoSnoc(init, last, g);
      PorGrupoLength(init, g);
    }
  }

  /**
   * Every catechist is listed under exactly one group, and adding the list
   * sizes over the distinct groups gives the size of the catalogue.
   */
  lemma {:induction false} GroupsPartitionCatalogue(cs: seq<Catequista>)
    ensures forall i | 0 <= i < |cs| :: cs[i] in PorGrupo(cs, cs[i].grupo)
    ensures forall i, g | 0 <= i < |cs| && g != cs[i].grupo :: cs[i] !in PorGrupo(cs, g)
    ensures SumCounts(cs, GrupoOf, Dedup(GruposDe(cs))) == |cs|
  {
    var ks := Dedup(GruposDe(cs));
    DedupDistinct(GruposDe(cs));
    forall i | 0 <= i < |cs| ensures GrupoOf(cs[i]) in ks {
      DedupMembers(GruposDe(cs), GruposDe(cs)[i]);
    }
    PartitionCount(cs, GrupoOf, ks);
  }

  /**
   * The catalogue has 30 entries; its groups are the seven groups plus the
   * formation team, which is not among them.
   */
  lemma CatalogueGroups()
    ensures |Catequistas| == 30
    ensures Formacion in GruposDe(Catequistas) && Formacion !in Grupos.Grupos
    ensures forall i | 0 <= i < |Catequistas| :: Catequistas[i].grupo in Grupos.Grupos || Catequistas[i].grupo == Formacion
  {
    assert GruposDe(Catequistas)[28] == Formacion;
  }
}
