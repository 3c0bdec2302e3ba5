/**
 * The fixed catalogues of the confirmation programme: the seven groups, the
 * sample roster of each group, the required document types, the number of
 * sessions, and the label of each session index (three of the 25 sessions are
 * special events; the others are numbered catechesis sessions).
 */
module Grupos {
  import opened Wrappers
  import opened Text

  /** `grupos`. */
  const Grupos: seq<string> :=
    ["Ciencia", "Piedad", "Fortaleza", "Consejo", "Entendimiento", "Sabidur\U{00ED}a", "Temor de Dios"]

  /** A student of a roster (its `documentos` and `asistencias` start empty and are not modelled). */
  datatype Estudiante = Estudiante(id: int, nombre: string)

  /** One roster entry: its object key (a numeric string, kept as its number) and the student. */
  datatype RosterEntry = RosterEntry(key: int, student: Estudiante)

  /** A roster, in the order of its object keys. */
  type Roster = seq<RosterEntry>

  datatype GroupInfo = GroupInfo(nombre: string, estudiantes: Roster)

  function Sample(a: string, b: string, c: string): Roster {
    [RosterEntry(1, Estudiante(1, a)), RosterEntry(2, Estudiante(2, b)), RosterEntry(3, Estudiante(3, c))]
  }

  /** `gruposData`. */
  const GruposData: map<string, GroupInfo> := map[
    "Ciencia" := GroupInfo("Ciencia", Sample("Juan P\U{00E9}rez", "Mar\U{00ED}a Garc\U{00ED}a", "Carlos L\U{00F3}pez")),
    "Piedad" := GroupInfo("Piedad", Sample("Ana Mart\U{00ED}nez", "Luis Rodr\U{00ED}guez", "Sofia Torres")),
    "Fortaleza" := GroupInfo("Fortaleza", Sample("Pedro S\U{00E1}nchez", "Laura Ram\U{00ED}rez", "Diego Flores")),
    "Consejo" := GroupInfo("Consejo", Sample("Carmen Ruiz", "Roberto Morales", "Isabel Castro")),
    "Entendimiento" := GroupInfo("Entendimiento", Sample("Miguel Ortiz", "Patricia G\U{00F3}mez", "Andr\U{00E9}s Vargas")),
    "Sabidur\U{00ED}a" := GroupInfo("Sabidur\U{00ED}a", Sample("Elena D\U{00ED}az", "Fernando Herrera", "Gabriela Medina")),
    "Temor de Dios" := GroupInfo("Temor de Dios", Sample("Ricardo Jim\U{00E9}nez", "Ver\U{00F3}nica Silva", "H\U{00E9}ctor Reyes"))
  ]

  /** The roster of a group: `gruposData[g]?.estudiantes`, `None` for an unknown group. */
  function RosterOf(g: string): (r: Option<Roster>)
    ensures r.Some? <==> g in Grupos
  {
    if g in GruposData then Some(GruposData[g].estudiantes) else None
  }

  /** Keys of a roster are distinct and each student's `id` equals its key. */
  predicate KeysMatchIds(r: Roster) {
    (forall i | 0 <= i < |r| :: r[i].student.id == r[i].key) &&
    (forall i, j | 0 <= i < j < |r| :: r[i].key != r[j].key)
  }

  /** `gruposData` has exactly the seven groups as keys, each named after its key, with well-keyed rosters. */
  lemma GruposDataShape()
    ensures |Grupos| == 7
    ensures forall i, j | 0 <= i < j < |Grupos| :: Grupos[i] != Grupos[j]
    ensures forall g :: g in GruposData <==> g in Grupos
    ensures forall g | g in GruposData :: GruposData[g].nombre == g && KeysMatchIds(GruposData[g].estudiantes)
  {
    GruposDistinct();
    GruposDataKeys();
    GruposDataRosters();
  }

  lemma GruposDistinct()
    ensures |Grupos| == 7
    ensures forall i, j | 0 <= i < j < |Grupos| :: Grupos[i] != Grupos[j]
  {
  }

  lemma GruposDataKeys()
    ensures forall g :: g in GruposData <==> g in Grupos
  {
  }

  lemma GruposDataRosters()
    ensures forall g | g in GruposData :: GruposData[g].nombre == g && KeysMatchIds(GruposData[g].estudiantes)
  {
  }

  datatype TipoDocumento = TipoDocumento(id: string, nombre: string)

  /** `tiposDocumentos`. */
  const TiposDocumentos: seq<TipoDocumento> := [
    TipoDocumento("cedula_catequizando", "C\U{00E9}dula Catequizando"),
    TipoDocumento("fe_bautismo", "Fe de Bautismo"),
    TipoDocumento("constancia_comunion", "Constancia Comuni\U{00F3}n"),
    TipoDocumento("cedula_padrino", "C\U{00E9}dula Padrino"),
    TipoDocumento("fe_confirmacion_padrino", "Fe Confirmaci\U{00F3}n Padrino"),
    TipoDocumento("acta_matrimonio", "Acta de Matrimonio")
  ]

  lemma TiposDocumentosDistinct()
    ensures |TiposDocumentos| == 6
    ensures forall i, j | 0 <= i < j < |TiposDocumentos| :: TiposDocumentos[i].id != TiposDocumentos[j].id
  {
  }

  /** `numeroCatequesis`: 22 catechesis sessions and three special events. */
  const NumeroCatequesis := 25

  /** The session indices holding the special events. */
  const RetiroFamiliaIndex := 11
  const RetiroPadrinosIndex := 20
  const EnsayoConfirmaIndex := 24

  datatype SessionLabel = RetiroFamilia | RetiroPadrinos | EnsayoConfirma | Catequesis(n: int)

  /** How many special indices lie strictly below `i`. */
  function SpecialBelow(i: int): (k: nat)
    ensures k <= 3
  {
    (if i > RetiroFamiliaIndex then 1 else 0) +
    (if i > RetiroPadrinosIndex then 1 else 0) +
    (if i > EnsayoConfirmaIndex then 1 else 0)
  }

  /** The label chosen by `getCatequesisLabel(index)`. */
  function Label(index: int): (l: SessionLabel)
    ensures l == RetiroFamilia <==> index == RetiroFamiliaIndex
    ensures l == RetiroPadrinos <==> index == RetiroPadrinosIndex
    ensures l == EnsayoConfirma <==> index == EnsayoConfirmaIndex
    ensures l.Catequesis? ==> l.n == index - SpecialBelow(index)
  {
    if index == 11 then RetiroFamilia
    else if index == 20 then RetiroPadrinos
    else if index == 24 then EnsayoConfirma
    else if index < 11 then Catequesis(index)
    else if index < 20 then Catequesis(index - 1)
    else if index < 24 then Catequesis(index - 2)
    else Catequesis(index - 3)
  }

  function LabelText(l: SessionLabel): string {
    match l
    case RetiroFamilia => "Retiro Familia"
    case RetiroPadrinos => "Retiro Padrinos"
    case EnsayoConfirma => "Ensayo Confirma"
    case Catequesis(n) => "Catequesis " + IntToString(n)
  }

  /** `getCatequesisLabel(index)`. */
  function GetCatequesisLabel(index: int): string {
    LabelText(Label(index))
  }

  /** Different labels never print the same text. */
  lemma LabelTextInjective(a: SessionLabel, b: SessionLabel)
    requires LabelText(a) == LabelText(b)
    ensures a == b
  {
    if a.Catequesis? && b.Catequesis? {
      var p := "Catequesis ";
      assert LabelText(a)[|p|..] == IntToString(a.n);
      assert LabelText(b)[|p|..] == IntToString(b.n);
      ParseIntOfIntToString(a.n);
      ParseIntOfIntToString(b.n);
    } else {
      FirstLetter(a);
      FirstLetter(b);
    }
  }

  /** Only the numbered sessions print a text starting with 'C'. */
  lemma FirstLetter(l: SessionLabel)
    ensures |LabelText(l)| > 0 && (LabelText(l)[0] == 'C' <==> l.Catequesis?)
  {
  }

  /** The session that carries the ordinary number `n`. */
  function OrdinaryIndex(n: int): int {
    if n < 11 then n else if n < 19 then n + 1 else if n < 22 then n + 2 else n + 3
  }

  /**
   * Over the 25 sessions, indices get distinct labels: the three special
   * events, and `Catequesis 0` to `Catequesis 21`, each exactly once.
   */
  lemma SessionNumbering()
    ensures forall i, j | 0 <= i < j < NumeroCatequesis :: Label(i) != Label(j)
    ensures forall i | 0 <= i < NumeroCatequesis && Label(i).Catequesis? :: 0 <= Label(i).n < 22
    ensures forall n | 0 <= n < 22 ::
      0 <= OrdinaryIndex(n) < NumeroCatequesis && Label(OrdinaryIndex(n)) == Catequesis(n)
  {
  }

  /** Indices past the last session are not rejected: they continue the numbering. */
  lemma IndicesPastTheEnd(i: int)
    requires i >= NumeroCatequesis
    ensures Label(i) == Catequesis(i - 3)
  {
  }
}
