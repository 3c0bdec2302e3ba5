/**
 * Name normalisers: `capitalizeName` (lower-case, split on white-space runs,
 * capitalise each piece, rejoin with single spaces) and `normalizeString`
 * (canonical decomposition, combining marks dropped, lower-cased, trimmed).
 */
module Format {
  import opened Wrappers
  import opened Text
  import opened Seqs

  /** The first white-space position at or after `i`, or `|s|`. */
  function NextSpace(s: string, i: nat): (j: nat)
    requires i <= |s|
    ensures i <= j <= |s|
    ensures forall k | i <= k < j :: !IsSpace(s[k])
    ensures j < |s| ==> IsSpace(s[j])
    decreases |s| - i
  {
    if i == |s| || IsSpace(s[i]) then i else NextSpace(s, i + 1)
  }

  /** The first non-white-space position at or after `i`, or `|s|`. */
  function SkipSpaces(s: string, i: nat): (j: nat)
    requires i <= |s|
    ensures i <= j <= |s|
    ensures forall k | i <= k < j :: IsSpace(s[k])
    ensures j < |s| ==> !IsSpace(s[j])
    decreases |s| - i
  {
    if i < |s| && IsSpace(s[i]) then SkipSpaces(s, i + 1) else i
  }

  /**
   * Pieces as `split(/\s+/)` yields them: at least one, none holding white
   * space, and only the first and the last possibly empty.
   */
  predicate WellFormedPieces(ps: seq<string>) {
    |ps| >= 1 &&
    (forall i | 0 <= i < |ps| :: NoSpace(ps[i])) &&
    (forall i | 0 < i < |ps| - 1 :: ps[i] != "")
  }

  /** `s.split(/\s+/)`. */
  function SplitWs(s: string): (ps: seq<string>)
    ensures WellFormedPieces(ps)
    ensures |s| > 0 && !IsSpace(s[0]) ==> ps[0] != ""
    decreases |s|
  {
    var j := NextSpace(s, 0);
    if j == |s| then [s]
    else
      var k := SkipSpaces(s, j);
      var rest := SplitWs(s[k..]);
      assert k < |s| ==> !IsSpace(s[k..][0]);
      [s[..j]] + rest
  }

  /** A non-empty run of white space. */
  predicate SpaceRun(w: string) {
    w != "" && forall k | 0 <= k < |w| :: IsSpace(w[k])
  }

  /** The pieces put back together, `ws[i]` between pieces `i` and `i + 1`. */
  function Interleave(ps: seq<string>, ws: seq<string>): string
    requires |ps| == |ws| + 1
    decreases |ps|
  {
    if |ps| == 1 then ps[0] else ps[0] + ws[0] + Interleave(ps[1..], ws[1..])
  }

  /** `ps` is `s` cut at the white-space runs `ws`. */
  predicate CutAt(s: string, ps: seq<string>, ws: seq<string>) {
    |ps| == |ws| + 1 && (forall i | 0 <= i < |ws| :: SpaceRun(ws[i])) && Interleave(ps, ws) == s
  }

  /** A character that is not white space. */
  predicate NotSpace(c: char) {
    !IsSpace(c)
  }

  /** All pieces one after the other. */
  function Concat(ps: seq<string>): string {
    if |ps| == 0 then "" else ps[0] + Concat(ps[1..])
  }

  /**
   * The pieces are the text cut at its white-space runs: some non-empty
   * white-space runs, one between each two neighbouring pieces, rebuild the
   * text exactly.
   */
  lemma {:induction false} SplitWsRebuilds(s: string)
    ensures exists ws :: CutAt(s, SplitWs(s), ws)
    decreases |s|
  {
    var j := NextSpace(s, 0);
    if j == |s| {
      assert CutAt(s, SplitWs(s), []);
    } else {
      var k := SkipSpaces(s, j);
      var rest := SplitWs(s[k..]);
      SplitWsRebuilds(s[k..]);
      var ws' :| CutAt(s[k..], rest, ws');
      assert SpaceRun(s[j..k]) by {
        forall m | 0 <= m < k - j ensures IsSpace(s[j..k][m]) {
          assert s[j..k][m] == s[j + m];
        }
      }
      assert SplitWs(s) == [s[..j]] + rest;
      CutCons(s, j, k, rest, ws');
    }
  }

  /** A word and a run of white space in front of a cut text give a cut of the whole. */
  lemma CutCons(s: string, j: nat, k: nat, rest: seq<string>, ws': seq<string>)
    requires j <= k <= |s| && SpaceRun(s[j..k]) && CutAt(s[k..], rest, ws')
    ensures CutAt(s, [s[..j]] + rest, [s[j..k]] + ws')
  {
    var ps, ws := [s[..j]] + rest, [s[j..k]] + ws';
    assert ps[1..] == rest && ws[1..] == ws';
    assert Interleave(ps, ws) == s[..j] + s[j..k] + s[k..];
    assert s[..j] + s[j..k] + s[k..] == s;
  }

  /** The pieces, one after the other, are the text with its white space removed. */
  lemma SplitWsKeepsNonSpace(s: string)
    ensures Concat(SplitWs(s)) == Filter(s, NotSpace)
  {
    SplitWsRebuilds(s);
    var ws :| CutAt(s, SplitWs(s), ws);
    CutKeepsNonSpace(s, SplitWs(s), ws);
  }

  lemma {:induction false} CutKeepsNonSpace(s: string, ps: seq<string>, ws: seq<string>)
    requires CutAt(s, ps, ws) && forall i | 0 <= i < |ps| :: NoSpace(ps[i])
    ensures Concat(ps) == Filter(s, NotSpace)
    decreases |ps|
  {
    var w := ps[0];
    WordKept(w);
    if |ps| > 1 {
      var t := Interleave(ps[1..], ws[1..]);
      var r := ws[0];
      assert CutAt(t, ps[1..], ws[1..]);
      assert forall i | 0 <= i < |ps[1..]| :: NoSpace(ps[1..][i]) by {
        forall i | 0 <= i < |ps[1..]| ensures NoSpace(ps[1..][i]) {
          assert ps[1..][i] == ps[i + 1];
        }
      }
      CutKeepsNonSpace(t, ps[1..], ws[1..]);
      assert s == w + (r + t);
      WordRunRest(w, r, t);
    }
  }

  /** A word, then a run of white space, then a rest: filtering keeps the word and the rest's non-space characters. */
  lemma WordRunRest(w: string, r: string, t: string)
    requires NoSpace(w) && SpaceRun(r)
    ensures Filter(w + (r + t), NotSpace) == w + Filter(t, NotSpace)
  {
    var rt := r + t;
    FilterAppend(r, t, NotSpace);
    RunDropped(r);
    assert Filter(rt, NotSpace) == Filter(t, NotSpace);
    FilterAppend(w, rt, NotSpace);
    WordKept(w);
  }

  lemma WordKept(w: string)
    requires NoSpace(w)
    ensures Filter(w, NotSpace) == w
  {
    FilterAll(w, NotSpace);
  }

  lemma RunDropped(w: string)
    requires SpaceRun(w)
    ensures Filter(w, NotSpace) == []
  {
    FilterNone(w, NotSpace);
  }

  lemma JoinStep(ps: seq<string>, sep: string)
    requires |ps| >= 2
    ensures Join(ps, sep) == ps[0] + sep + Join(ps[1..], sep)
  {
  }

  /** Joining well-formed pieces with single spaces and splitting again gives them back. */
  lemma {:induction false} SplitJoin(ps: seq<string>)
    requires WellFormedPieces(ps)
    ensures SplitWs(Join(ps, " ")) == ps
  {
    if |ps| >= 2 {
      var tail := Join(ps[1..], " ");
      JoinStep(ps, " ");
      WellFormedTail(ps);
      JoinStart(ps[1..]);
      SplitHead(ps[0], tail);
      SplitJoin(ps[1..]);
      assert ps == [ps[0]] + ps[1..];
    }
  }

  lemma WellFormedTail(ps: seq<string>)
    requires WellFormedPieces(ps) && |ps| >= 2
    ensures WellFormedPieces(ps[1..])
    ensures NoSpace(ps[0])
  {
    assert forall i | 0 <= i < |ps| - 1 :: ps[1..][i] == ps[i + 1];
  }

  /** A join of well-formed pieces does not start with white space. */
  lemma JoinStart(ps: seq<string>)
    requires |ps| >= 1
    requires forall i | 0 <= i < |ps| :: NoSpace(ps[i])
    requires |ps| >= 2 ==> ps[0] != ""
    ensures var t := Join(ps, " "); t == "" || !IsSpace(t[0])
  {
    if |ps| >= 2 {
      JoinStep(ps, " ");
      assert Join(ps, " ")[0] == ps[0][0];
    }
  }

  /** The first piece of `a + " " + t`, when `a` has no white space and `t` does not start with any. */
  lemma SplitHead(a: string, t: string)
    requires NoSpace(a)
    requires t == "" || !IsSpace(t[0])
    ensures SplitWs(a + " " + t) == [a] + SplitWs(t)
  {
    var s := a + " " + t;
    var m := |a|;
    assert s[m] == ' ';
    assert forall k | 0 <= k < m :: s[k] == a[k];
    assert NextSpace(s, 0) == m;
    assert s[m + 1..] == t;
    if t != "" {
      assert s[m + 1] == t[0];
    }
    assert SkipSpaces(s, m) == m + 1;
    assert s[..m] == a;
  }

  /** The pieces of a lower-case text are lower-case. */
  lemma {:induction false} SplitKeepsLower(s: string)
    requires IsLowerStr(s)
    ensures forall i | 0 <= i < |SplitWs(s)| :: IsLowerStr(SplitWs(s)[i])
    decreases |s|
  {
    var j := NextSpace(s, 0);
    if j < |s| {
      var k := SkipSpaces(s, j);
      assert IsLowerStr(s[k..]) by {
        forall i | 0 <= i < |s[k..]| ensures Lower(s[k..][i]) == s[k..][i] {
          assert s[k..][i] == s[k + i];
        }
      }
      SplitKeepsLower(s[k..]);
    }
  }

  /** `w.charAt(0).toUpperCase() + w.slice(1)`. */
  function CapWord(w: string): (r: string)
    ensures |r| == |w|
    ensures NoSpace(w) ==> NoSpace(r)
  {
    if |w| == 0 then "" else [Upper(w[0])] + w[1..]
  }

  function CapWords(ps: seq<string>): (qs: seq<string>)
    ensures |qs| == |ps|
  {
    seq(|ps|, i requires 0 <= i < |ps| => CapWord(ps[i]))
  }

  function LowerAll(ps: seq<string>): (qs: seq<string>)
    ensures |qs| == |ps|
  {
    seq(|ps|, i requires 0 <= i < |ps| => LowerStr(ps[i]))
  }

  lemma LowerConcat(a: string, b: string)
    ensures LowerStr(a + b) == LowerStr(a) + LowerStr(b)
  {
  }

  /** Lower-casing a joined text lower-cases each piece (the separator is already lower-case). */
  lemma {:induction false} LowerJoin(ps: seq<string>)
    ensures LowerStr(Join(ps, " ")) == Join(LowerAll(ps), " ")
  {
    if |ps| == 1 {
      assert LowerAll(ps) == [LowerStr(ps[0])];
    } else if |ps| >= 2 {
      JoinStep(ps, " ");
      JoinStep(LowerAll(ps), " ");
      assert LowerAll(ps)[1..] == LowerAll(ps[1..]);
      LowerJoin(ps[1..]);
      LowerConcat(ps[0] + " ", Join(ps[1..], " "));
      LowerConcat(ps[0], " ");
      assert LowerStr(" ") == " ";
    }
  }

  /** Lower-casing a capitalised lower-case word gives the word back. */
  lemma LowerCapWord(w: string)
    requires IsLowerStr(w)
    ensures LowerStr(CapWord(w)) == w
  {
    if |w| > 0 {
      assert LowerStr(CapWord(w))[0] == Lower(Upper(w[0])) == Lower(w[0]) == w[0];
    }
  }

  /** `capitalizeName(name)`; `None` stands for a value that is not a string. */
  function CapitalizeName(name: Option<string>): (r: string)
    ensures name.None? || name.value == "" ==> r == ""
    ensures name.Some? ==> |r| <= |name.value|
  {
    if name.None? || name.value == "" then ""
    else
      var ps := SplitWs(LowerStr(name.value));
      SplitLength(LowerStr(name.value));
      Join(CapWords(ps), " ")
  }

  function JoinedLength(ps: seq<string>): nat {
    if |ps| == 0 then 0 else |ps[0]| + (if |ps| > 1 then 1 else 0) + JoinedLength(ps[1..])
  }

  lemma {:induction false} JoinLength(ps: seq<string>)
    ensures |Join(ps, " ")| == JoinedLength(ps)
  {
    if |ps| >= 2 {
      JoinStep(ps, " ");
      JoinLength(ps[1..]);
    }
  }

  lemma {:induction false} CapWordsLength(ps: seq<string>)
    ensures JoinedLength(CapWords(ps)) == JoinedLength(ps)
  {
    if |ps| > 0 {
      assert CapWords(ps)[1..] == CapWords(ps[1..]);
      CapWordsLength(ps[1..]);
    }
  }

  /** Collapsing white-space runs to single spaces never lengthens the text. */
  lemma {:induction false} SplitLength(s: string)
    ensures |Join(CapWords(SplitWs(s)), " ")| <= |s|
    decreases |s|
  {
    var ps := SplitWs(s);
    JoinLength(CapWords(ps));
    CapWordsLength(ps);
    var j := NextSpace(s, 0);
    if j < |s| {
      var k := SkipSpaces(s, j);
      SplitLength(s[k..]);
      JoinLength(CapWords(SplitWs(s[k..])));
      CapWordsLength(SplitWs(s[k..]));
      assert ps == [s[..j]] + SplitWs(s[k..]);
      assert ps[1..] == SplitWs(s[k..]);
    }
  }

  /**
   * The result is made of exactly the capitalised pieces of the lower-cased
   * name, separated by single spaces.
   */
  lemma CapitalizeWords(name: string)
    requires name != ""
    ensures SplitWs(CapitalizeName(Some(name))) == CapWords(SplitWs(LowerStr(name)))
  {
    var ps := SplitWs(LowerStr(name));
    CapWordsWellFormed(ps);
    SplitJoin(CapWords(ps));
  }

  lemma CapWordsWellFormed(ps: seq<string>)
    requires WellFormedPieces(ps)
    ensures WellFormedPieces(CapWords(ps))
  {
    forall i | 0 <= i < |ps| ensures NoSpace(CapWords(ps)[i]) {
      assert CapWords(ps)[i] == CapWord(ps[i]);
    }
  }

  /** Capitalising an already capitalised name changes nothing. */
  lemma CapitalizeIdempotent(name: Option<string>)
    ensures CapitalizeName(Some(CapitalizeName(name))) == CapitalizeName(name)
  {
    var c := CapitalizeName(name);
    if c != "" {
      var ps := SplitWs(LowerStr(name.value));
      var qs := CapWords(ps);
      SplitKeepsLower(LowerStr(name.value));
      LowerJoin(qs);
      assert LowerAll(qs) == ps by {
        forall i | 0 <= i < |ps| ensures LowerAll(qs)[i] == ps[i] {
          LowerCapWord(ps[i]);
        }
      }
      SplitJoin(ps);
    }
  }

  // ---------------------------------------------------------------------
  // normalizeString

  /** The combining diacritical marks, U+0300 to U+036F. */
  predicate IsMark(c: char) {
    '\U{0300}' <= c <= '\U{036F}'
  }

  function StripMarks(s: string): (r: string)
    ensures forall i | 0 <= i < |r| :: !IsMark(r[i])
  {
    Filter(s, c => !IsMark(c))
  }

  /**
   * `normalizeString(s)`; `None` is a value that is not a string and `nfd`
   * stands for `normalize('NFD')`.
   */
  function NormalizeString(s: Option<string>, nfd: string -> string): (r: string)
    ensures s.None? || s.value == "" ==> r == ""
    ensures IsLowerStr(r)
    ensures forall i | 0 <= i < |r| :: !IsMark(r[i])
    ensures |r| > 0 ==> !IsSpace(r[0]) && !IsSpace(r[|r| - 1])
  {
    if s.None? || s.value == "" then ""
    else
      var l := LowerStr(StripMarks(nfd(s.value)));
      TrimKeepsLowerNoMarks(l);
      Trim(l)
  }

  /** Trimming keeps a lower-case text without combining marks that way. */
  lemma TrimKeepsLowerNoMarks(l: string)
    requires IsLowerStr(l)
    requires forall i | 0 <= i < |l| :: !IsMark(l[i])
    ensures IsLowerStr(Trim(l))
    ensures forall i | 0 <= i < |Trim(l)| :: !IsMark(Trim(l)[i])
  {
    var r := Trim(l);
    forall i | 0 <= i < |r| ensures Lower(r[i]) == r[i] && !IsMark(r[i]) {
      assert r[i] in r;
      var j :| 0 <= j < |l| && l[j] == r[i];
    }
  }
}

