/**
 * One student's summary page: attendance per date (the dates found in the
 * attendance rows, without repetitions, in ascending order), delivered
 * documents, the retreat payment, and free-text notes that only admin or
 * logistica users may edit. Each select's result is a parameter (`None` for
 * no data).
 */
module StudentDetail {
  import opened Wrappers
  import opened Seqs
  import opened Text
  import opened Tables
  import opened Estados
  import opened Usuarios
  import Analytics

  /** A row of `asistencias` for this student and group. */
  datatype AsistRow = AsistRow(fecha: string, estado: Estado)

  /** A row of `documentos_entregados` as read here: its `tipo_documento`, missing on the rows the grid writes. */
  datatype DocRow = DocRow(tipoDocumento: Option<string>, entregado: bool)

  // ---------------------------------------------------------------------
  // Attendance dates

  predicate Sorted(s: seq<string>) {
    forall i, j | 0 <= i < j < |s| :: StrLe(s[i], s[j])
  }

  lemma InsertFront(s: seq<string>, x: string)
    requires Sorted(s) && |s| > 0 && StrLe(x, s[0])
    ensures Sorted([x] + s)
  {
    forall j | 0 < j < |s|
      ensures StrLe(x, s[j])
    {
      StrLeTransitive(x, s[0], s[j]);
    }
  }

  lemma InsertCons(s: seq<string>, x: string, t: seq<string>)
    requires Sorted(s) && |s| > 0 && StrLe(s[0], x)
    requires Sorted(t) && multiset(t) == multiset(s[1..]) + multiset{x}
    ensures Sorted([s[0]] + t)
  {
    forall j | 0 <= j < |t|
      ensures StrLe(s[0], t[j])
    {
      assert t[j] in multiset(t);
      if t[j] != x {
        assert t[j] in multiset(s[1..]);
        var k :| 0 <= k < |s[1..]| && s[1..][k] == t[j];
        assert s[k + 1] == t[j];
      }
    }
  }

  /** Insertion of one date into an ascending list. */
  function Insert(s: seq<string>, x: string): (r: seq<string>)
    requires Sorted(s)
    ensures Sorted(r)
    ensures multiset(r) == multiset(s) + multiset{x}
  {
    if |s| == 0 then [x]
    else if StrLe(x, s[0]) then
      InsertFront(s, x);
      [x] + s
    else
      StrLeTotal(x, s[0]);
      assert s == [s[0]] + s[1..];
      var t := Insert(s[1..], x);
      InsertCons(s, x, t);
      [s[0]] + t
  }

  /** `fechas.sort()`: the default order, code unit by code unit. */
  method SortFechas(xs: seq<string>) returns (ys: seq<string>)
    ensures Sorted(ys)
    ensures multiset(ys) == multiset(xs)
  {
    ys := [];
    var i := 0;
    while i < |xs|
      invariant 0 <= i <= |xs|
      invariant Sorted(ys)
      invariant multiset(ys) == multiset(xs[..i])
    {
      assert xs[..i + 1] == xs[..i] + [xs[i]];
      ys := Insert(ys, xs[i]);
      i := i + 1;
    }
    assert xs[..|xs|] == xs;
  }

  function Fechas(rows: seq<AsistRow>): (fs: seq<string>)
    ensures |fs| == |rows| && forall i | 0 <= i < |rows| :: fs[i] == rows[i].fecha
  {
    if |rows| == 0 then [] else Fechas(rows[..|rows| - 1]) + [rows[|rows| - 1].fecha]
  }

  /** `asistObj[a.fecha] = a.estado` for every row in order. */
  function Ultimos(rows: seq<AsistRow>): map<string, Estado> {
    if |rows| == 0 then map[]
    else Ultimos(rows[..|rows| - 1])[rows[|rows| - 1].fecha := rows[|rows| - 1].estado]
  }

  /** The estado of the last row of each date, and the dates are exactly those of the rows. */
  lemma {:induction false} UltimosMeaning(rows: seq<AsistRow>, f: string)
    ensures f in Ultimos(rows) <==> f in Fechas(rows)
    ensures f in Ultimos(rows) ==> exists i | 0 <= i < |rows| ::
      rows[i].fecha == f && Ultimos(rows)[f] == rows[i].estado && forall j | i < j < |rows| :: rows[j].fecha != f
  {
    if |rows| > 0 {
      UltimosMeaning(rows[..|rows| - 1], f);
    }
  }

  /** Any ordering of the distinct dates of the rows lists each date of the attendance map once. */
  lemma SortedDatesMatchMap(rows: seq<AsistRow>, fechas: seq<string>)
    requires multiset(fechas) == multiset(Dedup(Fechas(rows)))
    ensures Distinct(fechas)
    ensures forall f :: f in fechas <==> f in Ultimos(rows)
    ensures |fechas| == |Ultimos(rows)|
  {
    var d := Dedup(Fechas(rows));
    DedupDistinct(Fechas(rows));
    PermutationKeepsDistinct(fechas, d);
    forall f
      ensures f in fechas <==> f in Ultimos(rows)
    {
      assert f in fechas <==> f in multiset(fechas);
      assert f in d <==> f in multiset(d);
      DedupMembers(Fechas(rows), f);
      UltimosMeaning(rows, f);
    }
    DistinctCardinality(fechas);
    assert (set f | f in fechas) == Ultimos(rows).Keys;
  }

  /** One attendance row folded into the map `m` and the date list `d` of the rows before it. */
  lemma RowStep(rows: seq<AsistRow>, i: nat, m: map<string, Estado>, d: seq<string>)
    requires i < |rows| && m == Ultimos(rows[..i]) && d == Dedup(Fechas(rows[..i]))
    ensures Ultimos(rows[..i + 1]) == m[rows[i].fecha := rows[i].estado]
    ensures Dedup(Fechas(rows[..i + 1])) == if rows[i].fecha in d then d else d + [rows[i].fecha]
  {
    assert rows[..i + 1][..i] == rows[..i];
    assert Fechas(rows[..i + 1]) == Fechas(rows[..i]) + [rows[i].fecha];
    DedupSnoc(Fechas(rows[..i]), rows[i].fecha);
    DedupMembers(Fechas(rows[..i]), rows[i].fecha);
  }

  /** The `forEach` over the attendance rows followed by the sort. */
  method LoadAsistencias(rows: seq<AsistRow>) returns (obj: map<string, Estado>, fechas: seq<string>)
    ensures obj == Ultimos(rows)
    ensures multiset(fechas) == multiset(Dedup(Fechas(rows)))
    ensures Sorted(fechas) && Distinct(fechas)
    ensures (forall f :: f in fechas <==> f in obj) && |fechas| == |obj|
  {
    obj := map[];
    var vistas: seq<string> := [];
    var i := 0;
    while i < |rows|
      invariant 0 <= i <= |rows|
      invariant obj == Ultimos(rows[..i])
      invariant vistas == Dedup(Fechas(rows[..i]))
    {
      RowStep(rows, i, obj, vistas);
      obj := obj[rows[i].fecha := rows[i].estado];
      if rows[i].fecha !in vistas {
        vistas := vistas + [rows[i].fecha];
      }
      i := i + 1;
    }
    assert rows[..|rows|] == rows;
    fechas := SortFechas(vistas);
    SortedDatesMatchMap(rows, fechas);
  }

  // ---------------------------------------------------------------------
  // Documents and payment

  /** `docObj[d.tipo_documento]`: a row without the column lands under "undefined". */
  function DocKey(r: DocRow): string {
    r.tipoDocumento.GetOr("undefined")
  }

  function DocsOf(rows: seq<DocRow>): map<string, bool> {
    if |rows| == 0 then map[]
    else DocsOf(rows[..|rows| - 1])[DocKey(rows[|rows| - 1]) := rows[|rows| - 1].entregado]
  }

  /** The document keys are those of the rows. */
  lemma {:induction false} DocsOfKeys(rows: seq<DocRow>, k: string)
    ensures k in DocsOf(rows) <==> exists i | 0 <= i < |rows| :: DocKey(rows[i]) == k
  {
    if |rows| > 0 {
      DocsOfKeys(rows[..|rows| - 1], k);
      if k != DocKey(rows[|rows| - 1]) && k in DocsOf(rows[..|rows| - 1]) {
        var i :| 0 <= i < |rows| - 1 && DocKey(rows[..|rows| - 1][i]) == k;
        assert DocKey(rows[i]) == k;
      }
    }
  }

  /**
   * With rows that carry no `tipo_documento` (as the document grid writes
   * them), every row lands on the same key, so at most one document counts.
   */
  lemma DocsWithoutTipoCountAtMostOne(rows: seq<DocRow>)
    requires forall i | 0 <= i < |rows| :: rows[i].tipoDocumento.None?
    ensures CountValue(DocsOf(rows), true) <= 1
  {
    var m := DocsOf(rows);
    forall k | k in m
      ensures k == "undefined"
    {
      DocsOfKeys(rows, k);
    }
    assert m.Keys <= {"undefined"};
    SubsetCard(m.Keys, {"undefined"});
  }

  /** `Math.round((pago / 50000) * 100)`: the payment text, not capped. */
  function PagoTexto(pago: int): (r: int)
    ensures 1000 * r - 500 <= 2 * pago < 1000 * r + 500
  {
    (2 * pago + 500) / 1000
  }

  /** `Math.min((pago / 50000) * 100, 100)`: the payment bar width, capped at 100. */
  function PagoBarra(pago: int): (w: real)
    ensures w <= 100.0
    ensures pago <= 50000 ==> w == pago as real / 500.0
  {
    var x := pago as real / 500.0;
    if x < 100.0 then x else 100.0
  }

  /** Above the required amount the bar stops at 100 while the text keeps growing. */
  lemma BarCappedTextNot()
    ensures PagoBarra(75000) == 100.0 && PagoTexto(75000) == 150
    ensures forall p: int | p >= 50000 :: PagoBarra(p) == 100.0 && PagoTexto(p) >= 100
  {
  }

  class Detalle {
    const grupo: string
    const estudianteId: int
    /** `asistencias`: date -> estado. */
    var asistencias: map<string, Estado>
    /** `fechasAsistencia`. */
    var fechas: seq<string>
    /** `documentos`. */
    var documentos: map<string, bool>
    /** `pagos.monto_pagado`, `None` while no row was read. */
    var pago: Option<int>
    var notas: string
    var editandoNotas: bool
    var loadingData: bool
    /** `notas_estudiantes`, taken to be keyed by (estudiante_id, grupo): the upsert names no key. */
    var notasStore: map<(int, string), string>

    /** The dates are ascending, distinct, and exactly the dates of the attendance map. */
    ghost predicate Valid()
      reads this`fechas, this`asistencias
    {
      Sorted(fechas) && Distinct(fechas) && (forall f :: f in fechas <==> f in asistencias) && |fechas| == |asistencias|
    }

    constructor(grupo: string, estudianteId: int, notasStore: map<(int, string), string>)
      ensures this.grupo == grupo && this.estudianteId == estudianteId && this.notasStore == notasStore
      ensures asistencias == map[] && fechas == [] && documentos == map[] && pago.None?
      ensures notas == "" && !editandoNotas && loadingData
      ensures Valid()
    {
      this.grupo := grupo;
      this.estudianteId := estudianteId;
      this.notasStore := notasStore;
      asistencias := map[];
      fechas := [];
      documentos := map[];
      pago := None;
      notas := "";
      editandoNotas := false;
      loadingData := true;
    }

    /**
     * `loadAllData`: each select that returns data replaces its part of the
     * page; one that returns none leaves it as it was.
     */
    method LoadAllData(asist: Option<seq<AsistRow>>, docs: Option<seq<DocRow>>, pagoRow: Option<int>, notaRow: Option<string>)
      requires Valid()
      modifies this`asistencias, this`fechas, this`documentos, this`pago, this`notas, this`loadingData
      ensures Valid() && !loadingData
      ensures asist.Some? ==> asistencias == Ultimos(asist.value) && multiset(fechas) == multiset(Dedup(Fechas(asist.value)))
      ensures asist.None? ==> asistencias == old(asistencias) && fechas == old(fechas)
      ensures docs.Some? ==> documentos == DocsOf(docs.value)
      ensures docs.None? ==> documentos == old(documentos)
      ensures pago == if pagoRow.Some? then pagoRow else old(pago)
      ensures notas == if notaRow.Some? then notaRow.value else old(notas)
    {
      CargarAsistencias(asist);
      CargarResto(docs, pagoRow, notaRow);
    }

    /** The attendance part of `loadAllData`. */
    method CargarAsistencias(asist: Option<seq<AsistRow>>)
      requires Valid()
      modifies this`asistencias, this`fechas
      ensures Valid()
      ensures asist.Some? ==> asistencias == Ultimos(asist.value) && multiset(fechas) == multiset(Dedup(Fechas(asist.value)))
      ensures asist.None? ==> asistencias == old(asistencias) && fechas == old(fechas)
    {
      if asist.Some? {
        asistencias, fechas := LoadAsistencias(asist.value);
      }
    }

    /** The documents, payment and notes part of `loadAllData`. */
    method CargarResto(docs: Option<seq<DocRow>>, pagoRow: Option<int>, notaRow: Option<string>)
      modifies this`documentos, this`pago, this`notas, this`loadingData
      ensures !loadingData
      ensures docs.Some? ==> documentos == DocsOf(docs.value)
      ensures docs.None? ==> documentos == old(documentos)
      ensures pago == if pagoRow.Some? then pagoRow else old(pago)
      ensures notas == if notaRow.Some? then notaRow.value else old(notas)
    {
      if docs.Some? {
        documentos := DocsOf(docs.value);
      }
      if pagoRow.Some? {
        pago := pagoRow;
      }
      if notaRow.Some? {
        notas := notaRow.value;
      }
      loadingData := false;
    }

    /** `totalJueves`. */
    function TotalJueves(): (n: nat)
      reads this
      ensures Valid() ==> n == |asistencias|
    {
      |fechas|
    }

    /** `asistenciaCount`: dates marked presente, never more than the dates shown. */
    function AsistenciaCount(): (n: nat)
      reads this
      requires Valid()
      ensures n <= TotalJueves()
    {
      CountValue(asistencias, Presente)
    }

    /** The attendance percentage, shown only when there is at least one date. */
    function Porcentaje(): (r: Option<int>)
      reads this
      requires Valid()
      ensures r.Some? <==> TotalJueves() > 0
      ensures r.Some? ==> 0 <= r.value <= 100
    {
      if TotalJueves() > 0 then Some(Analytics.RoundedPercentage(AsistenciaCount(), TotalJueves())) else None
    }

    /** `documentosCount`: documents whose value is exactly true. */
    function DocumentosCount(): (n: nat)
      reads this
      ensures n <= |documentos|
    {
      CountValue(documentos, true)
    }

    /** `pagos?.monto_pagado || 0`. */
    function PagoCuota(): (c: int)
      reads this
      ensures pago.None? ==> c == 0
      ensures pago.Some? ==> c == pago.value
    {
      pago.GetOr(0)
    }

    /** Typing into the notes box. */
    method SetNotas(texto: string)
      modifies this`notas
      ensures notas == texto
    {
      notas := texto;
    }

    /**
     * The Editar / Cancelar button, offered only to admin or logistica users:
     * each press switches editing on or off.
     */
    method EditarNotas(user: Option<User>)
      modifies this`editandoNotas
      ensures AdminOrLogistica(user) ==> editandoNotas == !old(editandoNotas)
      ensures !AdminOrLogistica(user) ==> editandoNotas == old(editandoNotas)
    {
      if AdminOrLogistica(user) {
        editandoNotas := !editandoNotas;
      }
    }

    /** `handleSaveNotas`: on success the notes are stored and editing ends; on an error editing stays on. */
    method HandleSaveNotas(ok: bool)
      modifies this`notasStore, this`editandoNotas
      ensures ok ==> notasStore == old(notasStore)[(estudianteId, grupo) := notas] && !editandoNotas
      ensures !ok ==> notasStore == old(notasStore) && editandoNotas == old(editandoNotas)
    {
      if ok {
        notasStore := notasStore[(estudianteId, grupo) := notas];
        editandoNotas := false;
      }
    }
  }
}
