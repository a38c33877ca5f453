/** The Python string operations the bot and the admin panel rely on:
    `needle in haystack`, `s.split(sep)` with an explicit separator, and
    `s.strip()` with no argument. */
module Text {

  /** `needle` occurs in `haystack` starting at position `i`. */
  predicate OccursAt(needle: string, haystack: string, i: nat) {
    i + |needle| <= |haystack| && haystack[i..i + |needle|] == needle
  }

  /** Python's `needle in haystack` for two `str` values. */
  predicate IsSubstring(needle: string, haystack: string)
    ensures IsSubstring(needle, haystack) ==> |needle| <= |haystack|
    ensures |needle| == 0 ==> IsSubstring(needle, haystack)
    decreases |haystack|
  {
    || (|needle| <= |haystack| && haystack[..|needle|] == needle)
    || (|haystack| > 0 && IsSubstring(needle, haystack[1..]))
  }

  /** The scan agrees with the textbook definition of a substring. */
  lemma {:induction false} IsSubstringIffOccurs(needle: string, haystack: string)
    ensures IsSubstring(needle, haystack) <==> exists i: nat :: OccursAt(needle, haystack, i)
    decreases |haystack|
  {
    if |haystack| > 0 {
      IsSubstringIffOccurs(needle, haystack[1..]);
      if |needle| <= |haystack| && haystack[..|needle|] == needle {
        assert OccursAt(needle, haystack, 0);
      }
      if exists i: nat :: OccursAt(needle, haystack[1..], i) {
        var i: nat :| OccursAt(needle, haystack[1..], i);
        assert haystack[1..][i..i + |needle|] == haystack[i + 1..i + 1 + |needle|];
        assert OccursAt(needle, haystack, i + 1);
      }
      if exists i: nat :: OccursAt(needle, haystack, i) {
        var i: nat :| OccursAt(needle, haystack, i);
        if i > 0 {
          assert haystack[1..][i - 1..i - 1 + |needle|] == haystack[i..i + |needle|];
          assert OccursAt(needle, haystack[1..], i - 1);
        } else {
          assert haystack[..|needle|] == haystack[0..|needle|];
        }
      }
    } else if |needle| == 0 {
      assert OccursAt(needle, haystack, 0);
    }
  }

  /** A text that contains `a + b` also contains `a`. */
  lemma PrefixOfSubstring(a: string, b: string, text: string)
    requires IsSubstring(a + b, text)
    ensures IsSubstring(a, text)
  {
    IsSubstringIffOccurs(a + b, text);
    var i: nat :| OccursAt(a + b, text, i);
    assert text[i..i + |a|] == (a + b)[..|a|] == a;
    assert OccursAt(a, text, i);
    IsSubstringIffOccurs(a, text);
  }

  /** How many times `c` occurs in `s`. */
  function Occurrences(s: string, c: char): nat {
    if |s| == 0 then 0 else (if s[0] == c then 1 else 0) + Occurrences(s[1..], c)
  }

  /** Python's `s.split(sep)` for a one-character separator: the pieces
      between consecutive separators, empty pieces included. */
  function Split(s: string, sep: char): (pieces: seq<string>)
    ensures |pieces| == Occurrences(s, sep) + 1
    ensures forall i :: 0 <= i < |pieces| ==> sep !in pieces[i]
    decreases |s|
  {
    if |s| == 0 then [""]
    else
      var rest := Split(s[1..], sep);
      if s[0] == sep then [""] + rest
      else [[s[0]] + rest[0]] + rest[1..]
  }

  /** `sep.join(pieces)` */
  function Join(pieces: seq<string>, sep: char): string
    requires |pieces| > 0
  {
    if |pieces| == 1 then pieces[0] else pieces[0] + [sep] + Join(pieces[1..], sep)
  }

  /** Splitting loses nothing: joining the pieces gives back the text. */
  lemma {:induction false} JoinSplit(s: string, sep: char)
    ensures Join(Split(s, sep), sep) == s
    decreases |s|
  {
    if |s| > 0 {
      JoinSplit(s[1..], sep);
      var rest := Split(s[1..], sep);
      if s[0] == sep {
        assert Split(s, sep)[1..] == rest;
      } else {
        var pieces := Split(s, sep);
        if |rest| == 1 {
          assert pieces == [[s[0]] + rest[0]];
        } else {
          assert pieces[1..] == rest[1..];
          assert Join(rest, sep) == rest[0] + [sep] + Join(rest[1..], sep);
        }
      }
    }
  }

  /** Joining pieces that hold no separator and splitting again gives the pieces back. */
  lemma {:induction false} SplitJoin(pieces: seq<string>, sep: char)
    requires |pieces| > 0
    requires forall i :: 0 <= i < |pieces| ==> sep !in pieces[i]
    ensures Split(Join(pieces, sep), sep) == pieces
    decreases |pieces|, |pieces[0]|
  {
    var p := pieces[0];
    if |p| == 0 {
      if |pieces| > 1 {
        SplitJoin(pieces[1..], sep);
        var s := Join(pieces, sep);
        assert s == [sep] + Join(pieces[1..], sep);
        assert s[1..] == Join(pieces[1..], sep);
      }
    } else {
      var tail := [p[1..]] + pieces[1..];
      assert forall i :: 0 <= i < |tail| ==> sep !in tail[i] by {
        assert forall c :: c in p[1..] ==> c in p;
      }
      SplitJoin(tail, sep);
      var s := Join(pieces, sep);
      assert p[0] != sep by { assert p[0] in p; }
      if |pieces| == 1 {
        assert s[1..] == Join(tail, sep);
      } else {
        assert Join(tail, sep) == p[1..] + [sep] + Join(pieces[1..], sep);
        assert s == [p[0]] + (p[1..] + [sep] + Join(pieces[1..], sep));
        assert s[1..] == Join(tail, sep);
      }
      assert tail[1..] == pieces[1..];
      assert [p[0]] + p[1..] == p;
      assert [[p[0]] + p[1..]] + tail[1..] == pieces;
    }
  }

  /** The characters for which Python's `str.isspace()` holds. */
  predicate IsSpace(c: char) {
    var n := c as int;
    || 0x09 <= n <= 0x0D || 0x1C <= n <= 0x20 || n == 0x85 || n == 0xA0
    || n == 0x1680 || 0x2000 <= n <= 0x200A || n == 0x2028 || n == 0x2029
    || n == 0x202F || n == 0x205F || n == 0x3000
  }

  predicate AllSpace(s: string) {
    forall i :: 0 <= i < |s| ==> IsSpace(s[i])
  }

  /** `s.lstrip()` */
  function TrimStart(s: string): (r: string)
    ensures |r| <= |s| && r == s[|s| - |r|..]
    ensures AllSpace(s[..|s| - |r|])
    ensures r == [] || !IsSpace(r[0])
  {
    if |s| > 0 && IsSpace(s[0]) then
      var r := TrimStart(s[1..]);
      assert s[1..][..|s| - 1 - |r|] == s[1..|s| - |r|];
      r
    else s
  }

  /** `s.rstrip()` */
  function TrimEnd(s: string): (r: string)
    ensures |r| <= |s| && r == s[..|r|]
    ensures AllSpace(s[|r|..])
    ensures r == [] || !IsSpace(r[|r| - 1])
  {
    if |s| > 0 && IsSpace(s[|s| - 1]) then
      var r := TrimEnd(s[..|s| - 1]);
      assert s[|r|..] == s[..|s| - 1][|r|..] + [s[|s| - 1]];
      r
    else s
  }

  /** `r` is what is left of `s` once a whitespace run of length `i` in front
      and one behind have been cut off. */
  predicate StrippedFrom(s: string, r: string, i: nat) {
    i + |r| <= |s| && r == s[i..i + |r|] && AllSpace(s[..i]) && AllSpace(s[i + |r|..])
  }

  /** Python's `s.strip()`: the text without its leading and trailing whitespace. */
  function Strip(s: string): (r: string)
    ensures StrippedFrom(s, r, |s| - |TrimStart(s)|)
    ensures r == [] || (!IsSpace(r[0]) && !IsSpace(r[|r| - 1]))
    ensures forall c :: c in r ==> c in s
  {
    var t := TrimStart(s);
    var r := TrimEnd(t);
    StripFacts(s, t, r);
    assert |r| > 0 ==> r[0] == t[0];
    r
  }

  lemma StripFacts(s: string, t: string, r: string)
    requires |t| <= |s| && t == s[|s| - |t|..] && AllSpace(s[..|s| - |t|])
    requires |r| <= |t| && r == t[..|r|] && AllSpace(t[|r|..])
    ensures StrippedFrom(s, r, |s| - |t|)
    ensures forall c :: c in r ==> c in s
  {
    var a := |s| - |t|;
    assert t[|r|..] == s[a + |r|..];
    forall c | c in r ensures c in s {
      var k :| 0 <= k < |r| && r[k] == c;
      assert s[a + k] == c;
    }
  }

  /** Stripping twice is stripping once. */
  lemma StripIdempotent(s: string)
    ensures Strip(Strip(s)) == Strip(s)
  {
    var r := Strip(s);
    if |r| > 0 {
      assert TrimStart(r) == r;
      assert TrimEnd(r) == r;
    }
  }
}
