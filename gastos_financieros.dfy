/**
 * The expense ledger (`gastos_confirmacion`): a list loaded newest first,
 * a form that either inserts a new expense or updates the one being edited,
 * deletion after confirmation, and the totals shown above the list (grand
 * total, count, rounded average, total per category). The table is a map
 * from row id to the stored expense.
 */
module GastosFinancieros {
  import opened Wrappers
  import opened Seqs
  import opened Text
  import opened Usuarios
  import opened Libro

  /** The stored fields of an expense; `monto` is null when the amount did not parse. */
  datatype Gasto = Gasto(
    concepto: string, monto: Option<int>, fecha: string, categoria: string,
    descripcion: Option<string>, pagadoPor: string)

  /** A row of `gastos_confirmacion`. */
  datatype Fila = Fila(id: int, gasto: Gasto)

  /** `formData`: every field is the text of its input. */
  datatype Formulario = Formulario(
    concepto: string, monto: string, fecha: string, categoria: string,
    descripcion: string, pagadoPor: string)

  datatype Categoria = Categoria(value: string, etiqueta: string, color: string)

  /** `categorias`, in display order. */
  const Categorias: seq<Categoria> := [
    Categoria("transporte", "Transporte", "blue"),
    Categoria("alimentacion", "Alimentaci\U{00F3}n", "green"),
    Categoria("materiales", "Materiales", "purple"),
    Categoria("hospedaje", "Hospedaje", "orange"),
    Categoria("servicios", "Servicios", "red"),
    Categoria("otros", "Otros", "gray")
  ]

  function Valores(cats: seq<Categoria>): (vs: seq<string>)
    ensures |vs| == |cats| && forall i | 0 <= i < |cats| :: vs[i] == cats[i].value
  {
    if |cats| == 0 then [] else [cats[0].value] + Valores(cats[1..])
  }

  /** The category values are all different. */
  lemma CategoriasDistintas()
    ensures Distinct(Valores(Categorias))
  {
    var vs := Valores(Categorias);
    assert vs == ["transporte", "alimentacion", "materiales", "hospedaje", "servicios", "otros"];
  }

  /** The empty form: today's date, the first category, the user as payer. */
  function FormularioVacio(hoy: string, usuario: string): Formulario {
    Formulario("", "", hoy, "transporte", "", usuario)
  }

  /** The submit guard: both the concepto and the monto are filled in. */
  predicate Completo(form: Formulario) {
    form.concepto != "" && form.monto != ""
  }

  /** `gastoData`: the form with the amount parsed and an empty date replaced by today. */
  function Datos(form: Formulario, hoy: string): (d: Gasto)
    ensures d.concepto == form.concepto && d.categoria == form.categoria && d.pagadoPor == form.pagadoPor
    ensures d.descripcion == Some(form.descripcion)
    ensures d.fecha == (if form.fecha != "" then form.fecha else hoy)
    ensures forall i: int :: form.monto == IntToString(i) ==> d.monto == Some(i)
    ensures form.monto == "" ==> d.monto.None?
  {
    IntsReadBack();
    Gasto(form.concepto, ParseIntPrefix(form.monto), if form.fecha != "" then form.fecha else hoy,
          form.categoria, Some(form.descripcion), form.pagadoPor)
  }

  /**
   * The form `handleEdit` fills from an expense; a null amount makes
   * `monto.toString()` throw, so there is no form.
   */
  function FormularioDe(g: Gasto): (r: Option<Formulario>)
    ensures r.None? <==> g.monto.None?
    ensures r.Some? ==> r.value.monto != ""
    ensures r.Some? ==> r.value.concepto == g.concepto && r.value.fecha == g.fecha
    ensures r.Some? ==> r.value.categoria == g.categoria && r.value.pagadoPor == g.pagadoPor
    ensures r.Some? ==> r.value.descripcion == g.descripcion.GetOr("")
  {
    if g.monto.None? then None
    else Some(Formulario(g.concepto, IntToString(g.monto.value), g.fecha, g.categoria,
                         g.descripcion.GetOr(""), g.pagadoPor))
  }

  /**
   * Editing and saving an expense unchanged writes it back as it was (a null
   * description comes back as the empty one), and the form it fills passes
   * the submit guard when the concepto is not empty.
   */
  lemma EditRoundTrip(g: Gasto, hoy: string)
    requires g.monto.Some? && g.fecha != ""
    ensures FormularioDe(g).Some?
    ensures Datos(FormularioDe(g).value, hoy) == g.(descripcion := Some(g.descripcion.GetOr("")))
    ensures Completo(FormularioDe(g).value) <==> g.concepto != ""
  {
    ParseIntOfIntToString(g.monto.value);
    assert IntToString(g.monto.value) != "" by {
      if g.monto.value < 0 {
        assert IntToString(g.monto.value) == "-" + NatToString(-g.monto.value);
      }
    }
  }

  /** `if (editingId)`: an id of 0 reads as "not editing". */
  predicate Editando(editingId: Option<int>) {
    editingId.Some? && editingId.value != 0
  }

  /**
   * The table after a successful save: `update ... eq('id', editingId)`
   * when editing (a missing id matches no row), otherwise an insert under
   * the id the database assigns.
   */
  function Guardado(store: map<int, Gasto>, editingId: Option<int>, nuevoId: int, datos: Gasto): (s: map<int, Gasto>)
    requires !Editando(editingId) ==> nuevoId !in store
    ensures Editando(editingId) ==> s.Keys == store.Keys
    ensures Editando(editingId) && editingId.value in store ==> s[editingId.value] == datos
    ensures !Editando(editingId) ==> s.Keys == store.Keys + {nuevoId} && s[nuevoId] == datos
    ensures forall id | id in store && !(Editando(editingId) && id == editingId.value) :: s[id] == store[id]
  {
    if Editando(editingId) then
      if editingId.value in store then store[editingId.value := datos] else store
    else store[nuevoId := datos]
  }

  /** `gasto.monto || 0`. */
  function Monto(f: Fila): int {
    f.gasto.monto.GetOr(0)
  }

  function CategoriaDe(f: Fila): string {
    f.gasto.categoria
  }

  /** `totalGastos`. */
  function TotalGastos(gastos: seq<Fila>): (t: int)
    ensures |gastos| == 0 ==> t == 0
    ensures (forall i | 0 <= i < |gastos| :: Monto(gastos[i]) >= 0) ==>
      t >= 0 && forall i | 0 <= i < |gastos| :: Monto(gastos[i]) <= t
  {
    SumOfBounds(gastos, Monto);
    SumOf(gastos, Monto)
  }

  /**
   * `gastosPorCategoria`: the total of each category in display order (a
   * null amount adds as 0, as `null` does in a JavaScript sum).
   */
  function PorCategoria(gastos: seq<Fila>): (ts: seq<int>)
    ensures |ts| == |Categorias|
    ensures forall i | 0 <= i < |Categorias| ::
      ts[i] == SumOf(Filter(gastos, ConClave(CategoriaDe, Categorias[i].value)), Monto)
  {
    var vs := Valores(Categorias);
    assert |vs| == |Categorias| && forall i | 0 <= i < |vs| :: vs[i] == Categorias[i].value;
    TotalesPor(gastos, CategoriaDe, vs, Monto)
  }

  /**
   * When every expense carries one of the six categories, the category
   * totals add up to the grand total.
   */
  lemma CategoriasCuadran(gastos: seq<Fila>)
    requires forall i | 0 <= i < |gastos| :: gastos[i].gasto.categoria in Valores(Categorias)
    ensures |PorCategoria(gastos)| == |Categorias|
    ensures forall i | 0 <= i < |Categorias| ::
      PorCategoria(gastos)[i] == SumWhere(gastos, CategoriaDe, Categorias[i].value, Monto)
    ensures Suma(PorCategoria(gastos)) == TotalGastos(gastos)
  {
    CategoriasDistintas();
    Cuadran(gastos, CategoriaDe, Valores(Categorias), Monto);
  }

  /** The first entry of `cats` with value `v` (`categorias.find`). */
  function Buscar(cats: seq<Categoria>, v: string): (r: Option<nat>)
    ensures r.None? <==> v !in Valores(cats)
    ensures r.Some? ==> r.value < |cats| && cats[r.value].value == v
    ensures r.Some? ==> forall i | 0 <= i < r.value :: cats[i].value != v
  {
    if |cats| == 0 then None
    else if cats[0].value == v then Some(0)
    else match Buscar(cats[1..], v)
      case None => None
      case Some(i) => Some(i + 1)
  }

  /** `getCategoriaColor`: the color of a listed category, gray otherwise. */
  function ColorDe(categoria: string): (c: string)
    ensures forall i | 0 <= i < |Categorias| && Categorias[i].value == categoria :: c == Categorias[i].color
    ensures categoria !in Valores(Categorias) ==> c == "gray"
  {
    CategoriasDistintas();
    match Buscar(Categorias, categoria)
    case None => "gray"
    case Some(i) => Categorias[i].color
  }

  class Gastos {
    /** `user?.usuario || ''`, the default payer. */
    const usuario: string
    /** The rows last loaded. */
    var gastos: seq<Fila>
    var loading: bool
    var showForm: bool
    var editingId: Option<int>
    var form: Formulario
    /** `gastos_confirmacion`, by id. */
    var store: map<int, Gasto>

    constructor(user: Option<User>, hoy: string, store: map<int, Gasto>)
      ensures usuario == UsuarioOf(user) && this.store == store
      ensures gastos == [] && loading && !showForm && editingId == None
      ensures form == FormularioVacio(hoy, usuario)
    {
      usuario := UsuarioOf(user);
      this.store := store;
      gastos := [];
      loading := true;
      showForm := false;
      editingId := None;
      form := FormularioVacio(hoy, UsuarioOf(user));
    }

    /** `loadGastos`: the rows replace the list on success (an error keeps it); loading ends either way. */
    method LoadGastos(rows: seq<Fila>, ok: bool)
      modifies this`gastos, this`loading
      ensures gastos == (if ok then rows else old(gastos))
      ensures !loading
    {
      if ok {
        gastos := rows;
      }
      loading := false;
    }

    /** `resetForm`. */
    method ResetForm(hoy: string)
      modifies this`form, this`editingId, this`showForm
      ensures form == FormularioVacio(hoy, usuario) && editingId == None && !showForm
    {
      form := FormularioVacio(hoy, usuario);
      editingId := None;
      showForm := false;
    }

    /**
     * `handleSubmit`: an incomplete form writes nothing; otherwise the
     * expense is updated or inserted and, only when that succeeds, the form
     * is reset (the page then reloads the list).
     */
    method HandleSubmit(hoy: string, nuevoId: int, ok: bool)
      requires nuevoId !in store
      modifies this`store, this`form, this`editingId, this`showForm
      ensures Completo(old(form)) && ok ==>
        store == Guardado(old(store), old(editingId), nuevoId, Datos(old(form), hoy)) &&
        form == FormularioVacio(hoy, usuario) && editingId == None && !showForm
      ensures !(Completo(old(form)) && ok) ==>
        store == old(store) && form == old(form) && editingId == old(editingId) && showForm == old(showForm)
    {
      if !Completo(form) || !ok {
        return;
      }
      store := Guardado(store, editingId, nuevoId, Datos(form, hoy));
      ResetForm(hoy);
    }

    /** `handleEdit`: fill the form from the expense and open it; a null amount throws first. */
    method HandleEdit(fila: Fila)
      modifies this`form, this`editingId, this`showForm
      ensures FormularioDe(fila.gasto).Some? ==>
        form == FormularioDe(fila.gasto).value && editingId == Some(fila.id) && showForm
      ensures FormularioDe(fila.gasto).None? ==>
        form == old(form) && editingId == old(editingId) && showForm == old(showForm)
    {
      var f := FormularioDe(fila.gasto);
      if f.Some? {
        form := f.value;
        editingId := Some(fila.id);
        showForm := true;
      }
    }

    /** `handleDelete`: only a confirmed, successful delete removes the row. */
    method HandleDelete(id: int, confirmado: bool, ok: bool)
      modifies this`store
      ensures store == if confirmado && ok then old(store) - {id} else old(store)
    {
      if confirmado && ok {
        store := store - {id};
      }
    }

    /** The average per expense: 0 for an empty list, else the rounded mean. */
    function Promedio(): (r: int)
      reads this
      ensures |gastos| == 0 ==> r == 0
      ensures |gastos| > 0 ==> 2 * |gastos| * r - |gastos| <= 2 * TotalGastos(gastos) < 2 * |gastos| * r + |gastos|
    {
      Libro.Promedio(TotalGastos(gastos), |gastos|)
    }
  }
}
