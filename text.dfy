/**
 * The JavaScript string operations the application relies on: case mapping
 * (ASCII letters only), `trim`, `split` on a one-character separator and `join`.
 */
module Text {

  predicate IsUpperAscii(c: char) { 'A' <= c <= 'Z' }

  predicate IsLowerAscii(c: char) { 'a' <= c <= 'z' }

  /** `toLowerCase` on one character. */
  function Lower(c: char): (r: char)
    ensures !IsUpperAscii(r)
    ensures IsUpperAscii(c) ==> IsLowerAscii(r)
    ensures !IsUpperAscii(c) ==> r == c
  {
    if IsUpperAscii(c) then (c as int + 32) as char else c
  }

  /** `toUpperCase` on one character. */
  function Upper(c: char): (r: char)
    ensures !IsLowerAscii(r)
    ensures IsLowerAscii(c) ==> IsUpperAscii(r) && Lower(r) == c
    ensures !IsLowerAscii(c) ==> r == c
  {
    if IsLowerAscii(c) then (c as int - 32) as char else c
  }

  function LowerStr(s: string): (r: string)
    ensures |r| == |s|
    ensures forall i :: 0 <= i < |s| ==> r[i] == Lower(s[i])
  {
    seq(|s|, i requires 0 <= i < |s| => Lower(s[i]))
  }

  function UpperStr(s: string): (r: string)
    ensures |r| == |s|
    ensures forall i :: 0 <= i < |s| ==> r[i] == Upper(s[i])
  {
    seq(|s|, i requires 0 <= i < |s| => Upper(s[i]))
  }

  /** Lower-casing ignores the case the text was written in. */
  lemma LowerStrIgnoresCase(s: string)
    ensures LowerStr(LowerStr(s)) == LowerStr(s)
    ensures LowerStr(UpperStr(s)) == LowerStr(s)
  {
  }

  /** `s.charAt(0).toUpperCase() + s.slice(1)`. */
  function Capitalise(s: string): (r: string)
    ensures |r| == |s| && LowerStr(r) == LowerStr(s)
    ensures s != [] ==> !IsLowerAscii(r[0]) && r[1..] == s[1..]
  {
    if s == [] then [] else [Upper(s[0])] + s[1..]
  }

  /** A word whose first character is not a lower-case letter and whose other characters are not upper-case letters. */
  predicate IsTitleWord(s: string)
  {
    s != [] && !IsLowerAscii(s[0]) && forall i :: 1 <= i < |s| ==> !IsUpperAscii(s[i])
  }

  /** Capitalising the lower-cased spelling gives back exactly the title words. */
  lemma CapitaliseLowerRoundTrip(s: string)
    requires s != []
    ensures Capitalise(LowerStr(s)) == s <==> IsTitleWord(s)
  {
    var r := Capitalise(LowerStr(s));
    if IsTitleWord(s) {
      assert r[0] == s[0];
      forall i | 1 <= i < |s| ensures r[i] == s[i] { }
    }
  }

  /** The characters `String.prototype.trim` removes: WhiteSpace and LineTerminator of ECMAScript. */
  predicate IsSpace(c: char)
  {
    var n := c as int;
    n == 0x09 || n == 0x0A || n == 0x0B || n == 0x0C || n == 0x0D || n == 0x20 || n == 0xA0 ||
    n == 0x1680 || (0x2000 <= n <= 0x200A) || n == 0x2028 || n == 0x2029 || n == 0x202F ||
    n == 0x205F || n == 0x3000 || n == 0xFEFF
  }

  /** Every character of `s` is white space. */
  predicate AllSpace(s: string)
  {
    forall k :: 0 <= k < |s| ==> IsSpace(s[k])
  }

  /** Where the leading white space from index `i` on ends: the first non-space at or after `i`. */
  function LeadEnd(s: string, i: nat): (j: nat)
    requires i <= |s|
    ensures i <= j <= |s|
    ensures forall k :: i <= k < j ==> IsSpace(s[k])
    ensures j == |s| || !IsSpace(s[j])
    decreases |s| - i
  {
    if i < |s| && IsSpace(s[i]) then LeadEnd(s, i + 1) else i
  }

  /** Where the trailing white space before index `j` starts, looking no further back than `lo`. */
  function TrailStart(s: string, lo: nat, j: nat): (i: nat)
    requires lo <= j <= |s|
    ensures lo <= i <= j
    ensures forall k :: i <= k < j ==> IsSpace(s[k])
    ensures i == lo || !IsSpace(s[i - 1])
    decreases j
  {
    if j > lo && IsSpace(s[j - 1]) then TrailStart(s, lo, j - 1) else j
  }

  /** `trim`: the input with its leading and trailing white space removed. */
  function Trim(s: string): (r: string)
    ensures exists i, j :: 0 <= i <= j <= |s| && r == s[i..j] && AllSpace(s[..i]) && AllSpace(s[j..])
    ensures r == [] || (!IsSpace(r[0]) && !IsSpace(r[|r| - 1]))
  {
    var i := LeadEnd(s, 0);
    var j := TrailStart(s, i, |s|);
    assert AllSpace(s[j..]) by {
      forall k | 0 <= k < |s[j..]| ensures IsSpace(s[j..][k]) {
        assert s[j..][k] == s[j + k];
      }
    }
    s[i..j]
  }

  lemma TrimIdempotent(s: string)
    ensures Trim(Trim(s)) == Trim(s)
  {
    var r := Trim(s);
    if r != [] {
      assert LeadEnd(r, 0) == 0;
      assert TrailStart(r, 0, |r|) == |r|;
    }
  }

  /** `split` on a one-character separator, with the characters of the current piece already read in `cur`. */
  function SplitFrom(s: string, sep: char, cur: string): (r: seq<string>)
    ensures |r| >= 1
    decreases |s|
  {
    if s == [] then [cur]
    else if s[0] == sep then [cur] + SplitFrom(s[1..], sep, [])
    else SplitFrom(s[1..], sep, cur + [s[0]])
  }

  /** `s.split(sep)`: the pieces between separators; an empty string gives one empty piece. */
  function Split(s: string, sep: char): (r: seq<string>)
    ensures |r| >= 1
  {
    SplitFrom(s, sep, [])
  }

  /** `parts.join(sep)`. */
  function Join(parts: seq<string>, sep: string): (r: string)
    decreases |parts|
  {
    if |parts| == 0 then ""
    else if |parts| == 1 then parts[0]
    else parts[0] + sep + Join(parts[1..], sep)
  }

  lemma {:induction false} JoinSplitFrom(s: string, sep: char, cur: string)
    ensures Join(SplitFrom(s, sep, cur), [sep]) == cur + s
    decreases |s|
  {
    if s == [] {
    } else if s[0] == sep {
      JoinSplitFrom(s[1..], sep, []);
      assert s == [sep] + s[1..];
    } else {
      JoinSplitFrom(s[1..], sep, cur + [s[0]]);
      assert s == [s[0]] + s[1..];
    }
  }

  /** Joining the pieces of a split with the same separator gives the text back. */
  lemma JoinSplit(s: string, sep: char)
    ensures Join(Split(s, sep), [sep]) == s
  {
    JoinSplitFrom(s, sep, []);
  }

  lemma {:induction false} SplitFromPiecesLackSeparator(s: string, sep: char, cur: string)
    requires sep !in cur
    ensures forall p :: p in SplitFrom(s, sep, cur) ==> sep !in p
    decreases |s|
  {
    if s == [] {
    } else if s[0] == sep {
      SplitFromPiecesLackSeparator(s[1..], sep, []);
    } else {
      SplitFromPiecesLackSeparator(s[1..], sep, cur + [s[0]]);
    }
  }

  /** No piece of a split contains the separator. */
  lemma SplitPiecesLackSeparator(s: string, sep: char)
    ensures forall p :: p in Split(s, sep) ==> sep !in p
  {
    SplitFromPiecesLackSeparator(s, sep, []);
  }

  /** Joining non-empty pieces gives "" exactly when there are no pieces. */
  lemma JoinEmptyIff(parts: seq<string>, sep: string)
    requires forall p :: p in parts ==> p != ""
    ensures Join(parts, sep) == "" <==> parts == []
  {
    if |parts| >= 1 {
      assert parts[0] in parts;
    }
  }
}
