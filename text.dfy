/**
 * The string operations the search boxes use: `toLowerCase` (on the ASCII
 * letters only) and `String.prototype.includes`.
 */
module Text {

  function LowerChar(c: char): char {
    if 'A' <= c <= 'Z' then (c as int - 'A' as int + 'a' as int) as char else c
  }

  /** `s.toLowerCase()`, restricted to the ASCII upper-case letters. */
  function Lower(s: string): string {
    seq(|s|, i requires 0 <= i < |s| => LowerChar(s[i]))
  }

  /** `s.includes(q)`: `q` occurs in `s` as a contiguous substring. */
  predicate Includes(s: string, q: string)
    decreases |s|
  {
    q <= s || (|s| > 0 && Includes(s[1..], q))
  }

  /** `Includes` agrees with the positional definition of a substring. */
  lemma {:induction false} IncludesAt(s: string, q: string)
    ensures Includes(s, q) <==> exists i :: 0 <= i <= |s| && q <= s[i..]
    decreases |s|
  {
    if q <= s {
      assert s[0..] == s;
    } else if |s| == 0 {
      forall i | 0 <= i <= |s| ensures !(q <= s[i..]) {
        assert s[i..] == s;
      }
    } else {
      IncludesAt(s[1..], q);
      if Includes(s[1..], q) {
        var j :| 0 <= j <= |s[1..]| && q <= s[1..][j..];
        assert s[1..][j..] == s[j + 1..];
      }
      if exists i :: 0 <= i <= |s| && q <= s[i..] {
        var i :| 0 <= i <= |s| && q <= s[i..];
        assert s[0..] == s;
        assert i != 0;
        assert s[1..][i - 1..] == s[i..];
      }
    }
  }

  /** Every string includes the empty string, so an empty query matches everything. */
  lemma IncludesEmpty(s: string)
    ensures Includes(s, "")
  {
  }
}
