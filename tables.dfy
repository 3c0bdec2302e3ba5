/**
 * The per-cell tracking tables kept by the components: a map from a row key
 * (a person or a student) to a map from a column key (a session, a date, a
 * document) to the cell value. `Cell` reads `state[row]?.[col]`, `SetCell`
 * is the `{...prev, [row]: {...prev[row], [col]: v}}` update, and
 * `CountValue` counts the cells of one row holding a given value.
 */
module Tables {
  import opened Wrappers

  /** `state[row]?.[col]`: the cell, if its row and column are both present. */
  function Cell<R(==,!new), C(==,!new), V>(state: map<R, map<C, V>>, row: R, col: C): Option<V> {
    if row in state && col in state[row] then Some(state[row][col]) else None
  }

  /** `state[row] || {}`: the row, or an empty one. */
  function RowOf<R(==,!new), C(==,!new), V>(state: map<R, map<C, V>>, row: R): map<C, V> {
    if row in state then state[row] else map[]
  }

  /** The spread update of exactly one cell; a missing row is created. */
  function SetCell<R(==,!new), C(==,!new), V>(state: map<R, map<C, V>>, row: R, col: C, v: V): (r: map<R, map<C, V>>)
    ensures r.Keys == state.Keys + {row}
    ensures Cell(r, row, col) == Some(v)
    ensures forall row', col' | row' != row || col' != col :: Cell(r, row', col') == Cell(state, row', col')
    ensures RowOf(r, row).Keys == RowOf(state, row).Keys + {col}
  {
    state[row := RowOf(state, row)[col := v]]
  }

  /** `state[row]?.[col] || false`: whether a checkbox cell is ticked. */
  predicate Checked<R(==,!new), C(==,!new)>(state: map<R, map<C, bool>>, row: R, col: C) {
    Cell(state, row, col) == Some(true)
  }

  /** Two clicks on a checkbox cell leave it showing what it showed. */
  lemma ToggleTwice<R(!new), C(!new)>(state: map<R, map<C, bool>>, row: R, col: C)
    ensures var once := SetCell(state, row, col, !Checked(state, row, col));
      var twice := SetCell(once, row, col, !Checked(once, row, col));
      forall row', col' :: Checked(twice, row', col') == Checked(state, row', col')
  {
  }

  /** The keys of `m` holding `v`. */
  function KeysWith<K(==,!new), V(==)>(m: map<K, V>, v: V): (ks: set<K>)
    ensures ks <= m.Keys
    ensures forall k :: k in ks <==> k in m && m[k] == v
  {
    set k | k in m && m[k] == v
  }

  /** `Object.values(m).filter(e => e === v).length`. */
  function CountValue<K(==,!new), V(==)>(m: map<K, V>, v: V): (n: nat)
    ensures n <= |m|
    ensures n == 0 <==> forall k | k in m :: m[k] != v
  {
    SubsetCard(KeysWith(m, v), m.Keys);
    |KeysWith(m, v)|
  }

  lemma {:induction false} SubsetCard<K>(a: set<K>, b: set<K>)
    requires a <= b
    ensures |a| <= |b|
    decreases |b|
  {
    if a != {} {
      var x :| x in a;
      SubsetCard(a - {x}, b - {x});
    }
  }

  /** The integers `lo..hi-1`. */
  function Range(lo: int, hi: int): (r: set<int>)
    ensures forall k :: k in r <==> lo <= k < hi
    decreases hi - lo
  {
    if lo >= hi then {} else Range(lo, hi - 1) + {hi - 1}
  }

  lemma {:induction false} RangeCard(lo: int, hi: int)
    requires lo <= hi
    ensures |Range(lo, hi)| == hi - lo
    decreases hi - lo
  {
    if lo < hi {
      RangeCard(lo, hi - 1);
    }
  }

  /** A row whose columns all lie in `lo..hi-1` holds at most `hi - lo` cells equal to `v`. */
  lemma CountInRange<V>(m: map<int, V>, v: V, lo: int, hi: int)
    requires lo <= hi
    requires forall k | k in m :: lo <= k < hi
    ensures CountValue(m, v) <= hi - lo
  {
    RangeCard(lo, hi);
    SubsetCard(KeysWith(m, v), Range(lo, hi));
  }
}
