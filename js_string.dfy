/**
 * The two JavaScript string operations the ping filter relies on:
 * `String.prototype.toLowerCase` (restricted to ASCII letters) and
 * `String.prototype.includes` (substring search).
 */
module JsString {

  predicate IsUpper(c: char) {
    'A' <= c <= 'Z'
  }

  /** ASCII lower-casing of one character; every other character is kept. */
  function LowerChar(c: char): (d: char)
    ensures !IsUpper(d)
    ensures IsUpper(c) ==> d as int - c as int == 'a' as int - 'A' as int
    ensures !IsUpper(c) ==> d == c
  {
    if IsUpper(c) then (c as int + ('a' as int - 'A' as int)) as char else c
  }

  /**
   * `s.toLowerCase()`: the length is kept, no upper-case letter is left, and
   * each character is the lower-case form of the one at the same index.
   */
  function Lower(s: string): (r: string)
    ensures |r| == |s|
    ensures forall i :: 0 <= i < |r| ==> !IsUpper(r[i])
    ensures forall i :: 0 <= i < |s| ==> r[i] == LowerChar(s[i])
  {
    seq(|s|, i requires 0 <= i < |s| => LowerChar(s[i]))
  }

  /** Lower-casing an already lower-cased string changes nothing. */
  lemma LowerIdempotent(s: string)
    ensures Lower(Lower(s)) == Lower(s)
  {
  }

  /** `q` occurs in `s` starting at index `i`. */
  ghost predicate OccursAt(s: string, q: string, i: int) {
    0 <= i && i + |q| <= |s| && s[i..i + |q|] == q
  }

  /** The specification of `s.includes(q)`: `q` occurs somewhere in `s`. */
  ghost predicate Substring(q: string, s: string) {
    exists i :: OccursAt(s, q, i)
  }

  /** `s.includes(q)`, computed by trying every start position from the left. */
  function Includes(s: string, q: string): (b: bool)
    ensures b <==> Substring(q, s)
    decreases |s|
  {
    if q <= s then
      assert OccursAt(s, q, 0);
      true
    else if s == [] then
      assert forall i :: !OccursAt(s, q, i);
      false
    else
      var b := Includes(s[1..], q);
      ShiftOccurrence(s, q);
      b
  }

  /** An occurrence in `s` that is not at the start is an occurrence in `s[1..]`. */
  lemma ShiftOccurrence(s: string, q: string)
    requires s != [] && !(q <= s)
    ensures Substring(q, s) <==> Substring(q, s[1..])
  {
    if Substring(q, s) {
      var i :| OccursAt(s, q, i);
      assert i != 0;
      assert s[1..][i - 1..i - 1 + |q|] == s[i..i + |q|];
      assert OccursAt(s[1..], q, i - 1);
    }
    if Substring(q, s[1..]) {
      var j :| OccursAt(s[1..], q, j);
      assert s[j + 1..j + 1 + |q|] == s[1..][j..j + |q|];
      assert OccursAt(s, q, j + 1);
    }
  }

  /** The empty string is included in every string (`"abc".includes("")`). */
  lemma EmptyIncluded(s: string)
    ensures Includes(s, "")
  {
    assert OccursAt(s, "", 0);
  }

  /** A query holding a character the text lacks is not included in it. */
  lemma AbsentCharExcludes(s: string, q: string, c: char)
    requires c in q && c !in s
    ensures !Includes(s, q)
  {
    var k :| 0 <= k < |q| && q[k] == c;
    forall i | 0 <= i && i + |q| <= |s|
      ensures !OccursAt(s, q, i)
    {
      assert s[i..i + |q|][k] == s[i + k] != c;
    }
  }
}
