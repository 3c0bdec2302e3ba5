/**
 * The three-state attendance cell shared by the formación, catequista and
 * module-level catequista tables: its stored form, the value read when a cell
 * is missing, and the click cycle ausente -> presente -> justificado -> ausente.
 */
module Estados {
  import opened Wrappers

  /**
   * A stored attendance value. `Otro(raw)` is any other stored value;
   * `Otro("")` stands for the falsy ones (`undefined`, `null`, empty text).
   */
  datatype Estado = Ausente | Presente | Justificado | Otro(raw: string)

  predicate IsCycleState(e: Estado) {
    e.Ausente? || e.Presente? || e.Justificado?
  }

  /** The text stored in the `estado` column. */
  function ToText(e: Estado): string {
    match e
    case Ausente => "ausente"
    case Presente => "presente"
    case Justificado => "justificado"
    case Otro(raw) => raw
  }

  /** Reads an `estado` column value. */
  function FromText(s: string): (e: Estado)
    ensures IsCycleState(e) <==> s in {"ausente", "presente", "justificado"}
  {
    if s == "ausente" then Ausente
    else if s == "presente" then Presente
    else if s == "justificado" then Justificado
    else Otro(s)
  }

  /** A value that reads back as itself (an `Otro` never spells one of the three names). */
  predicate WellFormed(e: Estado) {
    e.Otro? ==> e.raw !in {"ausente", "presente", "justificado"}
  }

  lemma TextRoundTrip(e: Estado, s: string)
    ensures WellFormed(e) ==> FromText(ToText(e)) == e
    ensures ToText(FromText(s)) == s
  {
  }

  /** `cell || 'ausente'`: a missing or falsy cell reads as ausente. */
  function Current(cell: Option<Estado>): (e: Estado)
    ensures cell.None? ==> e == Ausente
    ensures cell.Some? && cell.value != Otro("") ==> e == cell.value
    ensures e != Otro("")
  {
    match cell
    case None => Ausente
    case Some(v) => if v == Otro("") then Ausente else v
  }

  /**
   * `ciclo[estado]`: ausente -> presente -> justificado -> ausente; a value
   * outside the table yields `undefined`.
   */
  function Ciclo(e: Estado): (n: Estado)
    ensures IsCycleState(e) ==> IsCycleState(n) && n != e
    ensures !IsCycleState(e) ==> n == Otro("")
  {
    match e
    case Ausente => Presente
    case Presente => Justificado
    case Justificado => Ausente
    case Otro(_) => Otro("")
  }

  /** The new value a click writes for a cell. */
  function Siguiente(cell: Option<Estado>): (n: Estado)
    ensures cell.None? || IsCycleState(cell.value) || cell.value == Otro("") ==>
      IsCycleState(n) && n != Current(cell)
    ensures cell.Some? && !IsCycleState(cell.value) && cell.value != Otro("") ==> n == Otro("")
  {
    Ciclo(Current(cell))
  }

  lemma CicloOrbit(e: Estado)
    requires IsCycleState(e)
    ensures Ciclo(Ciclo(Ciclo(e))) == e
    ensures Ciclo(e) != e && Ciclo(Ciclo(e)) != e && Ciclo(e) != Ciclo(Ciclo(e))
  {
  }

  /** A click on a missing cell behaves as one on a cell explicitly set to ausente. */
  lemma MissingActsAsAusente()
    ensures Siguiente(None) == Siguiente(Some(Ausente)) == Presente
    ensures Siguiente(Some(Otro(""))) == Presente
  {
  }

  /** Starting from any cell, three clicks from a cycle state return to it. */
  lemma ClicksStayInCycle(cell: Option<Estado>)
    requires cell.None? || IsCycleState(cell.value)
    ensures IsCycleState(Siguiente(cell))
    ensures Siguiente(Some(Siguiente(Some(Siguiente(cell))))) == Current(cell)
  {
  }

  /** What a catequista cell shows. */
  datatype Vista = VistaPresente | VistaJustificado | VistaAusente

  function Mostrar(e: Estado): (v: Vista)
    ensures v == VistaAusente <==> !(e.Presente? || e.Justificado?)
  {
    if e.Presente? then VistaPresente
    else if e.Justificado? then VistaJustificado
    else VistaAusente
  }
}
