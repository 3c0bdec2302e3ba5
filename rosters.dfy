/**
 * A group's roster seen as the JavaScript object the components receive:
 * `for (key in estudiantes)` walks its keys, `estudiantes[key]` looks one up,
 * and `estudiantes[key].id` is the id the student carries.
 */
module Rosters {
  import opened Wrappers
  import opened Seqs
  import opened Grupos

  /** `Object.keys(estudiantes)`, as numbers. */
  function Keys(r: Roster): (ks: seq<int>)
    ensures |ks| == |r| && forall i | 0 <= i < |r| :: ks[i] == r[i].key
  {
    if |r| == 0 then [] else Keys(r[..|r| - 1]) + [r[|r| - 1].key]
  }

  /** The `.id` of each student, in key order. */
  function Ids(r: Roster): (ids: seq<int>)
    ensures |ids| == |r| && forall i | 0 <= i < |r| :: ids[i] == r[i].student.id
  {
    if |r| == 0 then [] else Ids(r[..|r| - 1]) + [r[|r| - 1].student.id]
  }

  /** `Object.entries(estudiantes).map(([id, data]) => ({id, ...data}))`: the spread puts the student's own `id` last, so it wins over the key. */
  function Students(r: Roster): (es: seq<Estudiante>)
    ensures |es| == |r| && forall i | 0 <= i < |r| :: es[i] == r[i].student
  {
    if |r| == 0 then [] else Students(r[..|r| - 1]) + [r[|r| - 1].student]
  }

  /** An object never repeats a key. */
  predicate WellKeyed(r: Roster) {
    Distinct(Keys(r))
  }

  /** `estudiantes[key]`: the student under that key, if any. */
  function Lookup(r: Roster, key: int): (s: Option<Estudiante>)
    ensures s.None? <==> key !in Keys(r)
    ensures s.Some? ==> exists i | 0 <= i < |r| :: r[i] == RosterEntry(key, s.value)
  {
    if |r| == 0 then None
    else if r[0].key == key then Some(r[0].student)
    else
      assert Keys(r[1..]) == Keys(r)[1..];
      Lookup(r[1..], key)
  }
}
