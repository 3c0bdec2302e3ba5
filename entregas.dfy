/**
 * The one-flag-per-student delivery tables (letters, sheets): the flags start
 * false for a given list of student keys, and the rows of the group then
 * overwrite the flags of keys already present.
 */
module Entregas {
  import opened Wrappers
  import opened Seqs
  import opened Tables

  /** A row of a delivery table. */
  datatype FlagRow = FlagRow(grupo: string, estudianteId: int, entregado: bool)

  function DelGrupo(grupo: string): FlagRow -> bool {
    (r: FlagRow) => r.grupo == grupo
  }

  /** `.eq('grupo', grupo)`. */
  function RowsOf(table: seq<FlagRow>, grupo: string): seq<FlagRow> {
    Filter(table, DelGrupo(grupo))
  }

  /** Every key starts undelivered. */
  function InitFlags(keys: seq<int>): (m: map<int, bool>)
    ensures forall k :: k in m <==> k in keys
    ensures forall k | k in m :: !m[k]
  {
    map k | k in keys :: false
  }

  /** The rows applied in order; a row for a key not present is dropped. */
  function Flags(keys: seq<int>, rows: seq<FlagRow>): map<int, bool> {
    if |rows| == 0 then InitFlags(keys)
    else
      var m := Flags(keys, rows[..|rows| - 1]);
      var r := rows[|rows| - 1];
      if r.estudianteId in m then m[r.estudianteId := r.entregado] else m
  }

  /** The flag of the last row for `id`. */
  function LastFlag(rows: seq<FlagRow>, id: int): (r: Option<bool>)
    ensures r.None? <==> forall i | 0 <= i < |rows| :: rows[i].estudianteId != id
    ensures r.Some? ==> exists i | 0 <= i < |rows| ::
      rows[i].estudianteId == id && rows[i].entregado == r.value &&
      forall j | i < j < |rows| :: rows[j].estudianteId != id
  {
    if |rows| == 0 then None
    else if rows[|rows| - 1].estudianteId == id then Some(rows[|rows| - 1].entregado)
    else LastFlag(rows[..|rows| - 1], id)
  }

  /**
   * After loading, the keys are exactly the given ones, and each flag is the
   * one of the last row for that key, or false when there is none.
   */
  lemma {:induction false} FlagsMeaning(keys: seq<int>, rows: seq<FlagRow>, k: int)
    ensures k in Flags(keys, rows) <==> k in keys
    ensures k in keys ==> Flags(keys, rows)[k] == LastFlag(rows, k).GetOr(false)
  {
    if |rows| > 0 {
      FlagsMeaning(keys, rows[..|rows| - 1], k);
    }
  }

  /** The load loops: initialise every key, then overlay the rows. */
  method LoadFlags(keys: seq<int>, rows: seq<FlagRow>) returns (m: map<int, bool>)
    ensures m == Flags(keys, rows)
  {
    m := map[];
    var i := 0;
    while i < |keys|
      invariant 0 <= i <= |keys|
      invariant m == InitFlags(keys[..i])
    {
      assert keys[..i + 1] == keys[..i] + [keys[i]];
      m := m[keys[i] := false];
      i := i + 1;
    }
    assert keys[..|keys|] == keys;
    var j := 0;
    while j < |rows|
      invariant 0 <= j <= |rows|
      invariant m == Flags(keys, rows[..j])
    {
      assert rows[..j + 1][..j] == rows[..j];
      if rows[j].estudianteId in m {
        m := m[rows[j].estudianteId := rows[j].entregado];
      }
      j := j + 1;
    }
    assert rows[..|rows|] == rows;
  }

  /** `Object.values(state).filter(Boolean).length`. */
  function Entregadas(m: map<int, bool>): (n: nat)
    ensures n <= |m|
  {
    CountValue(m, true)
  }

  /** After a load, the delivered count is at most the number of keys. */
  lemma EntregadasAtMostKeys(keys: seq<int>, rows: seq<FlagRow>)
    ensures Entregadas(Flags(keys, rows)) <= |keys|
  {
    var m := Flags(keys, rows);
    forall k ensures k in m.Keys <==> k in (set x | x in keys) {
      FlagsMeaning(keys, rows, k);
    }
    assert m.Keys == set x | x in keys;
    ElementsCardinality(keys);
  }
}
