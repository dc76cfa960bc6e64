/**
  * The string operations both validators rely on: `String.prototype.includes`
  * and `String.prototype.trim`, with the marker the validators look for.
  */
module Text {

  /** The marker whose presence both validators demand. */
  const Marker: string := "LOSECU"

  /** `m` occurs in `s` as a contiguous run starting at index `i`. */
  ghost predicate OccursAt(s: string, m: string, i: int) {
    0 <= i && i + |m| <= |s| && s[i..i + |m|] == m
  }

  /** `m` occurs somewhere in `s` as a contiguous run. */
  ghost predicate Occurs(s: string, m: string) {
    exists i :: OccursAt(s, m, i)
  }

  /** When `m` is not a prefix of `s`, its occurrences in `s` are those in `s[1..]`. */
  lemma OccursInTail(s: string, m: string)
    requires |m| <= |s| && s[..|m|] != m
    ensures Occurs(s, m) <==> Occurs(s[1..], m)
  {
    if Occurs(s, m) {
      var i :| OccursAt(s, m, i);
      assert i != 0;
      assert s[1..][i - 1..i - 1 + |m|] == s[i..i + |m|];
      assert OccursAt(s[1..], m, i - 1);
    }
    if Occurs(s[1..], m) {
      var i :| OccursAt(s[1..], m, i);
      assert s[1..][i..i + |m|] == s[i + 1..i + 1 + |m|];
      assert OccursAt(s, m, i + 1);
    }
  }

  /**
    * `s.includes(m)`: true exactly when `m` occurs in `s` as a contiguous run.
    * Case-sensitive; the empty string occurs in every string.
    */
  function Includes(s: string, m: string): (r: bool)
    ensures r <==> Occurs(s, m)
    decreases |s|
  {
    if |s| < |m| then
      false
    else if s[..|m|] == m then
      assert OccursAt(s, m, 0);
      true
    else
      OccursInTail(s, m);
      Includes(s[1..], m)
  }

  /**
    * The code points `trim` removes: ECMAScript's WhiteSpace (tab, vertical tab,
    * form feed, space, no-break space, byte order mark and the Space_Separator
    * category) and LineTerminator (line feed, carriage return, line and
    * paragraph separators).
    */
  predicate IsWhitespace(c: char) {
    var n := c as int;
    n == 0x09 || n == 0x0A || n == 0x0B || n == 0x0C || n == 0x0D || n == 0x20 ||
    n == 0xA0 || n == 0x1680 || (0x2000 <= n <= 0x200A) || n == 0x2028 ||
    n == 0x2029 || n == 0x202F || n == 0x205F || n == 0x3000 || n == 0xFEFF
  }

  /** Every character of `s` is one `trim` removes (vacuously true of ""). */
  ghost predicate AllWhitespace(s: string) {
    forall i :: 0 <= i < |s| ==> IsWhitespace(s[i])
  }

  /** `s.trimStart()`: the longest suffix of `s` that does not start with whitespace. */
  function TrimStart(s: string): (r: string)
    ensures |r| <= |s| && r == s[|s| - |r|..]
    ensures AllWhitespace(s[..|s| - |r|])
    ensures r == [] || !IsWhitespace(r[0])
  {
    if s == [] || !IsWhitespace(s[0]) then
      s
    else
      var r := TrimStart(s[1..]);
      TrimStartStep(s, r);
      r
  }

  /** One step of `TrimStart`: a leading whitespace character joins the removed prefix. */
  lemma TrimStartStep(s: string, r: string)
    requires s != [] && IsWhitespace(s[0])
    requires |r| <= |s| - 1 && r == s[1..][|s| - 1 - |r|..]
    requires AllWhitespace(s[1..][..|s| - 1 - |r|])
    ensures r == s[|s| - |r|..]
    ensures AllWhitespace(s[..|s| - |r|])
  {
    var k := |s| - |r|;
    assert s[1..][k - 1..] == s[k..];
    forall i | 0 <= i < k ensures IsWhitespace(s[..k][i]) {
      if i > 0 {
        assert s[..k][i] == s[1..][..k - 1][i - 1];
      }
    }
  }

  /** `s.trimEnd()`: the longest prefix of `s` that does not end with whitespace. */
  function TrimEnd(s: string): (r: string)
    ensures |r| <= |s| && r == s[..|r|]
    ensures AllWhitespace(s[|r|..])
    ensures r == [] || !IsWhitespace(r[|r| - 1])
  {
    if s == [] || !IsWhitespace(s[|s| - 1]) then
      s
    else
      var r := TrimEnd(s[..|s| - 1]);
      assert s[|r|..] == s[..|s| - 1][|r|..] + [s[|s| - 1]];
      r
  }

  /**
    * `r` is the run of `s` starting at `a` with everything before and after it
    * whitespace, and `r` neither starts nor ends with whitespace.
    */
  ghost predicate TrimmedAt(s: string, r: string, a: int) {
    0 <= a && a + |r| <= |s| && r == s[a..a + |r|] &&
    AllWhitespace(s[..a]) && AllWhitespace(s[a + |r|..]) &&
    (r == [] || (!IsWhitespace(r[0]) && !IsWhitespace(r[|r| - 1])))
  }

  /** `s.trim()`: `s` with its leading and trailing whitespace removed. */
  function Trim(s: string): (r: string)
    ensures exists a :: TrimmedAt(s, r, a)
  {
    var t := TrimStart(s);
    var r := TrimEnd(t);
    TrimBothEnds(s, t, r);
    r
  }

  /** Trimming the start and then the end leaves a run of `s` trimmed on both sides. */
  lemma TrimBothEnds(s: string, t: string, r: string)
    requires |t| <= |s| && t == s[|s| - |t|..] && AllWhitespace(s[..|s| - |t|])
    requires t == [] || !IsWhitespace(t[0])
    requires |r| <= |t| && r == t[..|r|] && AllWhitespace(t[|r|..])
    requires r == [] || !IsWhitespace(r[|r| - 1])
    ensures TrimmedAt(s, r, |s| - |t|)
  {
    var a := |s| - |t|;
    assert r == s[a..a + |r|];
    assert t[|r|..] == s[a + |r|..];
    assert r == [] || r[0] == t[0];
  }

  /** `s.trim()` is empty (falsy) exactly when `s` consists of whitespace only. */
  lemma TrimEmptyIffAllWhitespace(s: string)
    ensures Trim(s) == [] <==> AllWhitespace(s)
  {
    var t := TrimStart(s);
    var k := |s| - |t|;
    if Trim(s) == [] {
      assert t[0..] == t;
      assert t == [] && k == |s|;
      forall i | 0 <= i < |s| ensures IsWhitespace(s[i]) {
        assert s[i] == s[..k][i];
      }
    }
    if t != [] {
      assert t[0] == s[k] && !IsWhitespace(s[k]);
    }
  }

  /** No character of the marker is whitespace, so text holding it is never blank. */
  lemma MarkerNotBlank(s: string)
    ensures Occurs(s, Marker) ==> !AllWhitespace(s) && s != []
  {
    if Occurs(s, Marker) {
      var i :| OccursAt(s, Marker, i);
      assert s[i] == s[i..i + |Marker|][0] == 'L';
      assert !IsWhitespace(s[i]);
    }
  }
}
