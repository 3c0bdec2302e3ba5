/**
 * The income ledger (`ingresos_confirmacion`): like the expense ledger, plus
 * an optional receipt file uploaded to the `ingresos_comprobantes` bucket
 * before the row is written. The table is a map from row id to the stored
 * income; the bucket is the set of its file paths.
 */
module IngresosFinancieros {
  import opened Wrappers
  import opened Seqs
  import opened Text
  import opened Usuarios
  import opened Libro

  /** The stored fields of an income; `monto` is null when the amount did not parse. */
  datatype Ingreso = Ingreso(
    origen: string, monto: Option<int>, fecha: string, metodo: string,
    descripcion: Option<string>, recibidoPor: Option<string>, comprobanteUrl: Option<string>)

  /** A row of `ingresos_confirmacion`. */
  datatype Fila = Fila(id: int, ingreso: Ingreso)

  /** `formData`: every field is the text of its input. */
  datatype Formulario = Formulario(
    origen: string, monto: string, fecha: string, metodo: string,
    descripcion: string, recibidoPor: string, comprobanteUrl: string)

  /** The values of `metodos`, in display order. */
  const Metodos: seq<string> := ["efectivo", "sinpe", "transferencia"]

  /** `a || b` on a string that may be null. */
  function OrElse(a: Option<string>, b: string): (r: string)
    ensures a.Some? && a.value != "" ==> r == a.value
    ensures !(a.Some? && a.value != "") ==> r == b
  {
    if a.Some? && a.value != "" then a.value else b
  }

  /** The empty form: today's date, cash, the user as receiver, no receipt. */
  function FormularioVacio(hoy: string, usuario: string): Formulario {
    Formulario("", "", hoy, "efectivo", "", usuario, "")
  }

  /** The submit guard: both the origen and the monto are filled in. */
  predicate Completo(form: Formulario) {
    form.origen != "" && form.monto != ""
  }

  /** `ingresoData`: the form with the amount parsed, today for an empty date, and the receipt URL. */
  function Datos(form: Formulario, hoy: string, url: string): (d: Ingreso)
    ensures d.origen == form.origen && d.metodo == form.metodo
    ensures d.descripcion == Some(form.descripcion) && d.recibidoPor == Some(form.recibidoPor)
    ensures d.comprobanteUrl == Some(url)
    ensures d.fecha == (if form.fecha != "" then form.fecha else hoy)
    ensures forall i: int :: form.monto == IntToString(i) ==> d.monto == Some(i)
    ensures form.monto == "" ==> d.monto.None?
  {
    IntsReadBack();
    Ingreso(form.origen, ParseIntPrefix(form.monto), if form.fecha != "" then form.fecha else hoy,
            form.metodo, Some(form.descripcion), Some(form.recibidoPor), Some(url))
  }

  /**
   * The form `handleEdit` fills from an income: a missing receiver becomes
   * the user; a null amount makes `monto.toString()` throw, so no form.
   */
  function FormularioDe(i: Ingreso, usuario: string): (r: Option<Formulario>)
    ensures r.None? <==> i.monto.None?
    ensures r.Some? ==> ParseIntPrefix(r.value.monto) == i.monto && r.value.monto != ""
    ensures r.Some? ==> r.value.origen == i.origen && r.value.fecha == i.fecha && r.value.metodo == i.metodo
    ensures r.Some? ==> r.value.descripcion == OrElse(i.descripcion, "")
    ensures r.Some? ==> r.value.recibidoPor == OrElse(i.recibidoPor, usuario)
    ensures r.Some? ==> r.value.comprobanteUrl == OrElse(i.comprobanteUrl, "")
  {
    IntsReadBack();
    if i.monto.None? then None
    else Some(Formulario(i.origen, IntToString(i.monto.value), i.fecha, i.metodo,
                         OrElse(i.descripcion, ""), OrElse(i.recibidoPor, usuario),
                         OrElse(i.comprobanteUrl, "")))
  }

  /**
   * Editing an income and saving it without a new file writes it back as it
   * was, except that empty text fields are filled (the receiver with the
   * user); the edited form passes the guard exactly when the origen is set.
   */
  lemma EditRoundTrip(i: Ingreso, hoy: string, usuario: string)
    requires i.monto.Some? && i.fecha != ""
    ensures FormularioDe(i, usuario).Some?
    ensures var f := FormularioDe(i, usuario).value;
      Datos(f, hoy, f.comprobanteUrl) ==
      i.(descripcion := Some(OrElse(i.descripcion, "")),
         recibidoPor := Some(OrElse(i.recibidoPor, usuario)),
         comprobanteUrl := Some(OrElse(i.comprobanteUrl, "")))
    ensures Completo(FormularioDe(i, usuario).value) <==> i.origen != ""
  {
    ParseIntOfIntToString(i.monto.value);
    assert IntToString(i.monto.value) != "" by {
      if i.monto.value < 0 {
        assert IntToString(i.monto.value) == "-" + NatToString(-i.monto.value);
      }
    }
  }

  /** `name.split('.').pop()`: the text after the last dot, or the whole name without one. */
  function Extension(nombre: string): (ext: string)
    ensures |ext| <= |nombre| && ext == nombre[|nombre| - |ext|..]
    ensures '.' !in ext
    ensures '.' in nombre ==> nombre[|nombre| - |ext| - 1] == '.'
    ensures '.' !in nombre ==> ext == nombre
  {
    if |nombre| == 0 then ""
    else if nombre[|nombre| - 1] == '.' then ""
    else
      var init := nombre[..|nombre| - 1];
      assert nombre == init + [nombre[|nombre| - 1]];
      Extension(init) + [nombre[|nombre| - 1]]
  }

  /** `${user?.usuario || 'anon'}/ingreso-${Date.now()}.${fileExt}`. */
  function Ruta(usuario: string, ahora: nat, nombre: string): (ruta: string)
    ensures var carpeta := if usuario != "" then usuario else "anon";
      |carpeta| + 9 <= |ruta| && ruta[..|carpeta| + 9] == carpeta + "/ingreso-"
    ensures |Extension(nombre)| < |ruta| && ruta[|ruta| - |Extension(nombre)| - 1..] == "." + Extension(nombre)
  {
    var carpeta := (if usuario != "" then usuario else "anon") + "/ingreso-";
    var cola := "." + Extension(nombre);
    var ruta := carpeta + (NatToString(ahora) + cola);
    assert ruta[..|carpeta|] == carpeta;
    assert ruta[|ruta| - |cola|..] == cola;
    ruta
  }

  /** `if (editingId)`: an id of 0 reads as "not editing". */
  predicate Editando(editingId: Option<int>) {
    editingId.Some? && editingId.value != 0
  }

  /** The table after a successful save: update of the edited id, or insert under a fresh id. */
  function Guardado(store: map<int, Ingreso>, editingId: Option<int>, nuevoId: int, datos: Ingreso): (s: map<int, Ingreso>)
    requires !Editando(editingId) ==> nuevoId !in store
    ensures Editando(editingId) ==> s.Keys == store.Keys
    ensures Editando(editingId) && editingId.value in store ==> s[editingId.value] == datos
    ensures !Editando(editingId) ==> s.Keys == store.Keys + {nuevoId} && s[nuevoId] == datos
    ensures forall id | id in store && !(Editando(editingId) && id == editingId.value) :: s[id] == store[id]
  {
    if Editando(editingId) then
      if editingId.value in store then store[editingId.value := datos] else store
    else store[nuevoId := datos]
  }

  /** `ingreso.monto || 0`. */
  function Monto(f: Fila): int {
    f.ingreso.monto.GetOr(0)
  }

  function MetodoDe(f: Fila): string {
    f.ingreso.metodo
  }

  /** `totalIngresos`. */
  function TotalIngresos(ingresos: seq<Fila>): (t: int)
    ensures |ingresos| == 0 ==> t == 0
    ensures (forall i | 0 <= i < |ingresos| :: Monto(ingresos[i]) >= 0) ==>
      t >= 0 && forall i | 0 <= i < |ingresos| :: Monto(ingresos[i]) <= t
  {
    SumOfBounds(ingresos, Monto);
    SumOf(ingresos, Monto)
  }

  /** `ingresosPorMetodo`: the total of each method in display order (null adds as 0). */
  function PorMetodo(ingresos: seq<Fila>): (ts: seq<int>)
    ensures |ts| == |Metodos|
    ensures forall i | 0 <= i < |Metodos| :: ts[i] == SumOf(Filter(ingresos, ConClave(MetodoDe, Metodos[i])), Monto)
  {
    TotalesPor(ingresos, MetodoDe, Metodos, Monto)
  }

  /** With every income under one of the three methods, the method totals add up to the grand total. */
  lemma MetodosCuadran(ingresos: seq<Fila>)
    requires forall i | 0 <= i < |ingresos| :: ingresos[i].ingreso.metodo in Metodos
    ensures |PorMetodo(ingresos)| == |Metodos|
    ensures forall i | 0 <= i < |Metodos| :: PorMetodo(ingresos)[i] == SumWhere(ingresos, MetodoDe, Metodos[i], Monto)
    ensures Suma(PorMetodo(ingresos)) == TotalIngresos(ingresos)
  {
    Cuadran(ingresos, MetodoDe, Metodos, Monto);
  }

  class Ingresos {
    /** `user?.usuario || ''`. */
    const usuario: string
    var ingresos: seq<Fila>
    var loading: bool
    var showForm: bool
    var editingId: Option<int>
    var form: Formulario
    /** The selected file's name, if any. */
    var archivo: Option<string>
    /** `ingresos_confirmacion`, by id. */
    var store: map<int, Ingreso>
    /** The paths stored in `ingresos_comprobantes`. */
    var bucket: set<string>

    constructor(user: Option<User>, hoy: string, store: map<int, Ingreso>, bucket: set<string>)
      ensures usuario == UsuarioOf(user) && this.store == store && this.bucket == bucket
      ensures ingresos == [] && loading && !showForm && editingId == None && archivo == None
      ensures form == FormularioVacio(hoy, usuario)
    {
      usuario := UsuarioOf(user);
      this.store := store;
      this.bucket := bucket;
      ingresos := [];
      loading := true;
      showForm := false;
      editingId := None;
      archivo := None;
      form := FormularioVacio(hoy, UsuarioOf(user));
    }

    /** `loadIngresos`: the rows replace the list on success; loading ends either way. */
    method LoadIngresos(rows: seq<Fila>, ok: bool)
      modifies this`ingresos, this`loading
      ensures ingresos == (if ok then rows else old(ingresos))
      ensures !loading
    {
      if ok {
        ingresos := rows;
      }
      loading := false;
    }

    /** Choosing (or clearing) the receipt file. */
    method SetFile(nombre: Option<string>)
      modifies this`archivo
      ensures archivo == nombre
    {
      archivo := nombre;
    }

    /** `resetForm`, which also drops the selected file. */
    method ResetForm(hoy: string)
      modifies this`form, this`editingId, this`showForm, this`archivo
      ensures form == FormularioVacio(hoy, usuario) && editingId == None && !showForm && archivo == None
    {
      form := FormularioVacio(hoy, usuario);
      editingId := None;
      showForm := false;
      archivo := None;
    }

    /** Whether the selected file can be stored: the upload succeeds and its path is new. */
    predicate SubidaPosible(ahora: nat, subidaOk: bool, bucket: set<string>)
      reads this`archivo
      requires archivo.Some?
    {
      subidaOk && Ruta(usuario, ahora, archivo.value) !in bucket
    }

    /**
     * `uploadComprobante`: without a file the form's URL is kept; with one,
     * the file is stored under a new path (an existing path is refused, as
     * `upsert: false` does) and its public URL `url` is returned.
     */
    method UploadComprobante(ahora: nat, subidaOk: bool, url: string) returns (r: Option<string>)
      modifies this`bucket
      ensures archivo.None? ==> r == Some(form.comprobanteUrl) && bucket == old(bucket)
      ensures archivo.Some? ==>
        if SubidaPosible(ahora, subidaOk, old(bucket)) then r == Some(url) && bucket == old(bucket) + {Ruta(usuario, ahora, archivo.value)}
        else r == None && bucket == old(bucket)
    {
      if archivo.None? {
        return Some(form.comprobanteUrl);
      }
      var ruta := Ruta(usuario, ahora, archivo.value);
      if !subidaOk || ruta in bucket {
        return None;
      }
      bucket := bucket + {ruta};
      r := Some(url);
    }

    /**
     * `handleSubmit`: an incomplete form does nothing; a failed upload
     * writes no row; a failed row write after a successful upload leaves
     * the uploaded file in the bucket; on success the form is reset.
     */
    method HandleSubmit(hoy: string, nuevoId: int, ahora: nat, subidaOk: bool, url: string, ok: bool)
      requires nuevoId !in store
      modifies this`store, this`bucket, this`form, this`editingId, this`showForm, this`archivo
      ensures !Completo(old(form)) ==>
        store == old(store) && bucket == old(bucket) && form == old(form) &&
        editingId == old(editingId) && showForm == old(showForm) && archivo == old(archivo)
      ensures Completo(old(form)) ==>
        var subida := old(archivo).Some? ==> old(SubidaPosible(ahora, subidaOk, bucket));
        var enlace := if old(archivo).Some? then url else old(form).comprobanteUrl;
        (bucket == if old(archivo).Some? && subida then old(bucket) + {Ruta(usuario, ahora, old(archivo).value)} else old(bucket)) &&
        if subida && ok then
          store == Guardado(old(store), old(editingId), nuevoId, Datos(old(form), hoy, enlace)) &&
          form == FormularioVacio(hoy, usuario) && editingId == None && !showForm && archivo == None
        else
          store == old(store) && form == old(form) && editingId == old(editingId) &&
          showForm == old(showForm) && archivo == old(archivo)
    {
      if !Completo(form) {
        return;
      }
      var enlace := UploadComprobante(ahora, subidaOk, url);
      if enlace.None? || !ok {
        return;
      }
      store := Guardado(store, editingId, nuevoId, Datos(form, hoy, enlace.value));
      ResetForm(hoy);
    }

    /** `handleEdit`: fill the form from the income, open it and drop any selected file. */
    method HandleEdit(fila: Fila)
      modifies this`form, this`editingId, this`showForm, this`archivo
      ensures FormularioDe(fila.ingreso, usuario).Some? ==>
        form == FormularioDe(fila.ingreso, usuario).value && editingId == Some(fila.id) && showForm && archivo == None
      ensures FormularioDe(fila.ingreso, usuario).None? ==>
        form == old(form) && editingId == old(editingId) && showForm == old(showForm) && archivo == old(archivo)
    {
      var f := FormularioDe(fila.ingreso, usuario);
      if f.Some? {
        form := f.value;
        editingId := Some(fila.id);
        showForm := true;
        archivo := None;
      }
    }

    /** `handleDelete`: only a confirmed, successful delete removes the row (its receipt stays). */
    method HandleDelete(id: int, confirmado: bool, ok: bool)
      modifies this`store
      ensures store == if confirmado && ok then old(store) - {id} else old(store)
    {
      if confirmado && ok {
        store := store - {id};
      }
    }

    /** The average per income: 0 for an empty list, else the rounded mean. */
    function Promedio(): (r: int)
      reads this
      ensures |ingresos| == 0 ==> r == 0
      ensures |ingresos| > 0 ==> 2 * |ingresos| * r - |ingresos| <= 2 * TotalIngresos(ingresos) < 2 * |ingresos| * r + |ingresos|
    {
      Libro.Promedio(TotalIngresos(ingresos), |ingresos|)
    }
  }
}
