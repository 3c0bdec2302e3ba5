/**
 * Retreat payments for one group: one entry per student (amount paid, paid
 * flag), the required amount of 50000 colones, and the `pagos_retiro` table
 * keyed by (grupo, estudiante_id). Amounts are whole colones.
 */
module Pagos {
  import opened Wrappers
  import opened Seqs
  import opened Text
  import opened Grupos
  import opened Rosters
  import Analytics

  const MontoRequerido: int := 50000

  /** A student's entry in `pagosState`. */
  datatype Pago = Pago(montoPagado: int, pagado: bool)

  /** A row of `pagos_retiro` as the load reads it. */
  datatype PagoRow = PagoRow(grupo: string, estudianteId: int, montoPagado: int, pagado: bool)

  /** The stored part of a row besides its key. */
  datatype Registro = Registro(estudianteNombre: string, montoRequerido: int, montoPagado: int, pagado: bool)

  function DelGrupo(grupo: string): PagoRow -> bool {
    (r: PagoRow) => r.grupo == grupo
  }

  /** `.eq('grupo', grupo)`. */
  function RowsOf(table: seq<PagoRow>, grupo: string): seq<PagoRow> {
    Filter(table, DelGrupo(grupo))
  }

  /** Nothing paid yet for every roster key. */
  function SinPagos(keys: seq<int>): (m: map<int, Pago>)
    ensures forall k :: k in m <==> k in keys
    ensures forall k | k in m :: m[k] == Pago(0, false)
  {
    map k | k in keys :: Pago(0, false)
  }

  /** The rows applied in order; a row for a student outside the roster is dropped. */
  function Loaded(keys: seq<int>, rows: seq<PagoRow>): (m: map<int, Pago>)
    ensures forall k :: k in m <==> k in keys
  {
    if |rows| == 0 then SinPagos(keys)
    else
      var m := Loaded(keys, rows[..|rows| - 1]);
      var r := rows[|rows| - 1];
      if r.estudianteId in m then m[r.estudianteId := Pago(r.montoPagado, r.pagado)] else m
  }

  /** The entry of the last row for `id`. */
  function LastPago(rows: seq<PagoRow>, id: int): (r: Option<Pago>)
    ensures r.None? <==> forall i | 0 <= i < |rows| :: rows[i].estudianteId != id
    ensures r.Some? ==> exists i | 0 <= i < |rows| ::
      rows[i].estudianteId == id && r.value.montoPagado == rows[i].montoPagado && r.value.pagado == rows[i].pagado &&
      forall j | i < j < |rows| :: rows[j].estudianteId != id
  {
    if |rows| == 0 then None
    else
      var r := rows[|rows| - 1];
      if r.estudianteId == id then Some(Pago(r.montoPagado, r.pagado))
      else LastPago(rows[..|rows| - 1], id)
  }

  /** After loading, the entries are exactly the roster keys, each from its last row or unpaid. */
  lemma {:induction false} LoadedMeaning(keys: seq<int>, rows: seq<PagoRow>, id: int)
    ensures id in Loaded(keys, rows) <==> id in keys
    ensures id in keys ==> Loaded(keys, rows)[id] == LastPago(rows, id).GetOr(Pago(0, false))
  {
    if |rows| > 0 {
      LoadedMeaning(keys, rows[..|rows| - 1], id);
    }
  }

  /** The paid flag agrees with the threshold. */
  predicate Consistent(p: Pago) {
    p.pagado <==> p.montoPagado >= MontoRequerido
  }

  /** The entry a new amount produces: paid exactly from the required amount on. */
  function NuevoPago(monto: int): (p: Pago)
    ensures p.montoPagado == monto && Consistent(p)
  {
    Pago(monto, monto >= MontoRequerido)
  }

  /** `Math.max(0, 50000 - monto_pagado)`. */
  function Falta(p: Pago): (r: int)
    ensures r >= 0
    ensures r == 0 <==> p.montoPagado >= MontoRequerido
    ensures r > 0 ==> p.montoPagado + r == MontoRequerido
    ensures Consistent(p) ==> (r == 0 <==> p.pagado)
  {
    Analytics.Remaining(MontoRequerido, p.montoPagado)
  }

  /** `parseInt(value) || 0`: the amount typed into the input. */
  function MontoDeEntrada(texto: string): (n: int)
    ensures ParseIntPrefix(texto).None? ==> n == 0
    ensures ParseIntPrefix(texto).Some? ==> n == ParseIntPrefix(texto).value
  {
    ParseIntPrefix(texto).GetOr(0)
  }

  /** Any integer typed in, negative ones included, is taken as it is; text without digits is 0. */
  lemma EntradaDeEnteros(i: int)
    ensures MontoDeEntrada(IntToString(i)) == i
  {
    ParseIntOfIntToString(i);
  }

  /** Text that does not start with digits, and the empty box, count as 0. */
  lemma EntradaSinDigitos()
    ensures MontoDeEntrada("abc") == 0 && MontoDeEntrada("") == 0
  {
    var t := "abc";
    assert !IsSpace(t[0]) && t[0] != '-' && t[0] != '+' && !IsDigit(t[0]);
    TrimStartUnchanged(t);
    assert DigitPrefix(t) == "";
    assert ParseIntPrefix(t) == None;
    assert ParseIntPrefix("") == None;
  }

  /** What an entry adds to `totalPagado`. */
  function Monto(p: Pago): int {
    p.montoPagado
  }

  /** What an entry adds to `completados`: one when it is flagged paid. */
  function Cuenta(p: Pago): int {
    if p.pagado then 1 else 0
  }

  /** A finite non-empty set of integers has a least element. */
  lemma {:induction false} HasLeast(s: set<int>)
    requires s != {}
    ensures exists k | k in s :: forall j | j in s :: k <= j
  {
    if forall y :: y !in s {
      assert false;
    }
    var x :| x in s;
    if s != {x} {
      HasLeast(s - {x});
      var k :| k in s - {x} && forall j | j in s - {x} :: k <= j;
      assert forall j | j in s :: j == x || j in s - {x};
      if x < k {
        assert forall j | j in s :: x <= j;
      } else {
        assert forall j | j in s :: k <= j;
      }
    } else {
      assert forall j | j in s :: x <= j;
    }
  }

  /** The smallest student key of a non-empty state: the order in which `Suma` visits entries. */
  function MenorClave(m: map<int, Pago>): (k: int)
    requires m != map[]
    ensures k in m && forall j | j in m :: k <= j
  {
    HasLeast(m.Keys);
    var k :| k in m.Keys && forall j | j in m.Keys :: k <= j;
    k
  }

  /** `Object.values(m).reduce((sum, p) => sum + f(p), 0)`. */
  function Suma(m: map<int, Pago>, f: Pago -> int): int
    decreases |m|
  {
    if m == map[] then 0
    else
      var k := MenorClave(m);
      assert (m - {k}).Keys == m.Keys - {k};
      f(m[k]) + Suma(m - {k}, f)
  }

  /** Taking any one entry out leaves the sum of the others: each entry is counted exactly once, whatever the order. */
  lemma {:induction false} SumaQuita(m: map<int, Pago>, k: int, f: Pago -> int)
    requires k in m
    ensures Suma(m, f) == f(m[k]) + Suma(m - {k}, f)
    decreases |m|
  {
    var j := MenorClave(m);
    if j != k {
      assert (m - {j}).Keys == m.Keys - {j};
      assert (m - {k}).Keys == m.Keys - {k};
      SumaQuita(m - {j}, k, f);
      SumaQuita(m - {k}, j, f);
      assert m - {j} - {k} == m - {k} - {j};
    }
  }

  /** With no negative term, the sum is never negative. */
  lemma {:induction false} SumaNoNegativa(m: map<int, Pago>, f: Pago -> int)
    requires forall k | k in m :: f(m[k]) >= 0
    ensures Suma(m, f) >= 0
    decreases |m|
  {
    if m != map[] {
      var k := MenorClave(m);
      assert (m - {k}).Keys == m.Keys - {k};
      SumaNoNegativa(m - {k}, f);
    }
  }

  /** Every entry is in the sum once; with no negative term, each one is at most the sum. */
  lemma CadaEntrada(m: map<int, Pago>, f: Pago -> int)
    ensures forall k | k in m :: Suma(m, f) == f(m[k]) + Suma(m - {k}, f)
    ensures (forall k | k in m :: f(m[k]) >= 0) ==> Suma(m, f) >= 0 && forall k | k in m :: f(m[k]) <= Suma(m, f)
  {
    forall k | k in m
      ensures Suma(m, f) == f(m[k]) + Suma(m - {k}, f)
    {
      SumaQuita(m, k, f);
    }
    if forall k | k in m :: f(m[k]) >= 0 {
      SumaNoNegativa(m, f);
      forall k | k in m
        ensures f(m[k]) <= Suma(m, f)
      {
        SumaNoNegativa(m - {k}, f);
      }
    }
  }

  /** Setting one entry changes the sum by the difference, or adds the new entry when the key was not listed. */
  lemma SumaCambia(m: map<int, Pago>, k: int, p: Pago, f: Pago -> int)
    ensures Suma(m[k := p], f) == (if k in m then Suma(m, f) - f(m[k]) else Suma(m, f)) + f(p)
  {
    SumaQuita(m[k := p], k, f);
    if k in m {
      SumaQuita(m, k, f);
      assert m[k := p] - {k} == m - {k};
    } else {
      assert m[k := p] - {k} == m;
    }
  }

  /** The keys of the entries flagged paid. */
  function Pagados(m: map<int, Pago>): set<int> {
    set k | k in m && m[k].pagado
  }

  /** Counting the paid flags gives the number of paid entries, never more than the entries. */
  lemma {:induction false} CuentaPagados(m: map<int, Pago>)
    ensures Suma(m, Cuenta) == |Pagados(m)|
    ensures Suma(m, Cuenta) <= |m|
    decreases |m|
  {
    if m != map[] {
      var k := MenorClave(m);
      assert (m - {k}).Keys == m.Keys - {k};
      CuentaPagados(m - {k});
      if m[k].pagado {
        assert Pagados(m) == Pagados(m - {k}) + {k};
      } else {
        assert Pagados(m) == Pagados(m - {k});
      }
    }
  }

  /** The count reaches the number of entries exactly when every entry is flagged paid. */
  lemma {:induction false} TodosPagados(m: map<int, Pago>)
    ensures Suma(m, Cuenta) == |m| <==> forall k | k in m :: m[k].pagado
    decreases |m|
  {
    if m != map[] {
      var k := MenorClave(m);
      assert (m - {k}).Keys == m.Keys - {k};
      TodosPagados(m - {k});
      CuentaPagados(m - {k});
      assert |m - {k}| == |m| - 1;
      assert forall j | j in m :: j == k || j in m - {k};
    }
  }

  /**
   * With consistent entries and no negative amounts, the total paid covers
   * the required amount once for every completed payment.
   */
  lemma {:induction false} TotalCoversCompleted(m: map<int, Pago>)
    requires forall k | k in m :: Consistent(m[k]) && m[k].montoPagado >= 0
    ensures Suma(m, Monto) >= MontoRequerido * Suma(m, Cuenta)
    decreases |m|
  {
    if m != map[] {
      var k := MenorClave(m);
      assert (m - {k}).Keys == m.Keys - {k};
      TotalCoversCompleted(m - {k});
    }
  }

  /**
   * After a load the entries are the roster's students; with the keys of an
   * object, which never repeat, that is one entry per student, so the count
   * of completed payments never exceeds the students.
   */
  lemma LoadedEntries(keys: seq<int>, rows: seq<PagoRow>)
    requires Distinct(keys)
    ensures Loaded(keys, rows).Keys == set k | k in keys
    ensures |Loaded(keys, rows)| == |keys|
    ensures Suma(Loaded(keys, rows), Cuenta) <= |keys|
  {
    var m := Loaded(keys, rows);
    forall id
      ensures id in m <==> id in keys
    {
      LoadedMeaning(keys, rows, id);
    }
    assert m.Keys == set k | k in keys;
    DistinctCardinality(keys);
    CuentaPagados(m);
  }

  /** The two passes of the load: every key unpaid, then each row of a listed student. */
  method LoadState(keys: seq<int>, rows: seq<PagoRow>) returns (m: map<int, Pago>)
    ensures m == Loaded(keys, rows)
  {
    m := map[];
    var i := 0;
    while i < |keys|
      invariant 0 <= i <= |keys|
      invariant m == SinPagos(keys[..i])
    {
      assert keys[..i + 1] == keys[..i] + [keys[i]];
      m := m[keys[i] := Pago(0, false)];
      i := i + 1;
    }
    assert keys[..|keys|] == keys;
    var j := 0;
    while j < |rows|
      invariant 0 <= j <= |rows|
      invariant m == Loaded(keys, rows[..j])
    {
      assert rows[..j + 1][..j] == rows[..j];
      if rows[j].estudianteId in m {
        m := m[rows[j].estudianteId := Pago(rows[j].montoPagado, rows[j].pagado)];
      }
      j := j + 1;
    }
    assert rows[..|rows|] == rows;
  }

  class Pagos {
    const grupo: string
    /** The roster, or `null` (the catequistas pseudo-group passes none). */
    const estudiantes: Option<Roster>
    /** `pagosState`. */
    var state: map<int, Pago>
    /** `pagos_retiro`: (grupo, estudiante_id) -> row. */
    var store: map<(string, int), Registro>
    var loading: bool

    constructor(grupo: string, estudiantes: Option<Roster>, store: map<(string, int), Registro>)
      ensures this.grupo == grupo && this.estudiantes == estudiantes && this.store == store
      ensures state == map[] && loading
    {
      this.grupo := grupo;
      this.estudiantes := estudiantes;
      this.store := store;
      state := map[];
      loading := true;
    }

    /**
     * `loadPagos` (run only with a group and a roster): every roster key
     * starts unpaid, this group's rows then overwrite roster students; on an
     * error everyone stays unpaid. Without a roster nothing runs and the
     * component stays loading.
     */
    method LoadPagos(table: seq<PagoRow>, ok: bool)
      modifies this`state, this`loading
      ensures grupo == "" || estudiantes.None? ==> state == old(state) && loading == old(loading)
      ensures grupo != "" && estudiantes.Some? ==>
        !loading && state == Loaded(Keys(estudiantes.value), if ok then RowsOf(table, grupo) else [])
    {
      if grupo == "" || estudiantes.None? {
        return;
      }
      var rows: seq<PagoRow> := [];
      if ok {
        rows := RowsOf(table, grupo);
      }
      state := LoadState(Keys(estudiantes.value), rows);
      loading := false;
    }

    /**
     * `handleMontoPagado(key, monto)`: upsert the new amount with the
     * required 50000 and the paid flag `monto >= 50000`; only on success
     * does that one entry change locally. Without a roster, or for a key
     * outside it, there is no name to read and nothing is written.
     */
    method HandleMontoPagado(key: int, nuevoMonto: int, ok: bool)
      modifies this`state, this`store
      ensures var e := if estudiantes.Some? then Lookup(estudiantes.value, key) else None;
        if e.Some? && ok then
          store == old(store)[(grupo, key) := Registro(e.value.nombre, MontoRequerido, nuevoMonto, nuevoMonto >= MontoRequerido)] &&
          state == old(state)[key := NuevoPago(nuevoMonto)]
        else store == old(store) && state == old(state)
      ensures estudiantes.Some? && Lookup(estudiantes.value, key).Some? && ok && key in old(state) ==>
        TotalPagado() == old(TotalPagado()) - old(state[key].montoPagado) + nuevoMonto
    {
      if estudiantes.None? {
        return;
      }
      var estudiante := Lookup(estudiantes.value, key);
      if estudiante.None? || !ok {
        return;
      }
      var pagado := nuevoMonto >= MontoRequerido;
      SumaCambia(state, key, Pago(nuevoMonto, pagado), Monto);
      store := store[(grupo, key) := Registro(estudiante.value.nombre, MontoRequerido, nuevoMonto, pagado)];
      state := state[key := Pago(nuevoMonto, pagado)];
    }

    /** `totalRequerido`: 50000 per roster student. */
    function TotalRequerido(): (t: int)
      reads this
      requires estudiantes.Some?
      ensures t == MontoRequerido * |Keys(estudiantes.value)|
      ensures t >= 0
    {
      |Keys(estudiantes.value)| * MontoRequerido
    }

    /** `totalPagado`: the amounts of all the entries of `pagosState`, each counted once. */
    function TotalPagado(): (t: int)
      reads this
      ensures forall k | k in state :: t == state[k].montoPagado + Suma(state - {k}, Monto)
      ensures (forall k | k in state :: state[k].montoPagado >= 0) ==>
        t >= 0 && forall k | k in state :: state[k].montoPagado <= t
    {
      CadaEntrada(state, Monto);
      Suma(state, Monto)
    }

    /** `completados`: how many entries of `pagosState` are flagged paid. */
    function Completados(): (n: nat)
      reads this
      ensures n == |Pagados(state)| && n <= |state|
      ensures n == |state| <==> forall k | k in state :: state[k].pagado
    {
      CuentaPagados(state);
      TodosPagados(state);
      Suma(state, Cuenta)
    }
  }

  /** A successful amount update keeps every entry consistent when they all were. */
  lemma UpdateKeepsConsistent(state: map<int, Pago>, key: int, monto: int)
    requires forall k | k in state :: Consistent(state[k])
    ensures var m := state[key := NuevoPago(monto)]; forall k | k in m :: Consistent(m[k])
  {
  }
}
