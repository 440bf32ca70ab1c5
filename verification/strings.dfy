/** The Python `str` operations the pipeline relies on, on `seq<char>`:
    `lower` (ASCII letters only), `replace` of one character by another,
    `in` (substring test), `startswith`, `endswith`, `split` on a one-character
    separator and `join`. */
module Strings {

  /** `ch.lower()` for ASCII letters; every other character is left alone. */
  function LowerChar(ch: char): char {
    if 'A' <= ch <= 'Z' then (ch as int + 32) as char else ch
  }

  /** `s.lower()`, restricted to ASCII letters. */
  function Lower(s: string): string
    decreases |s|
  {
    if |s| == 0 then "" else [LowerChar(s[0])] + Lower(s[1..])
  }

  /** Lower-casing works character by character and keeps the length. */
  lemma {:induction false} LowerChars(s: string)
    ensures |Lower(s)| == |s|
    ensures forall i :: 0 <= i < |s| ==> Lower(s)[i] == LowerChar(s[i])
    decreases |s|
  {
    if |s| > 0 {
      LowerChars(s[1..]);
    }
  }

  /** Lower-casing twice is lower-casing once. */
  lemma LowerIdempotent(s: string)
    ensures Lower(Lower(s)) == Lower(s)
  {
    LowerChars(s);
    LowerChars(Lower(s));
    assert forall i :: 0 <= i < |s| ==> Lower(Lower(s))[i] == Lower(s)[i];
  }

  /** Every string of a list, lower-cased: `[p.lower() for p in parts]`. */
  function LowerAll(parts: seq<string>): (r: seq<string>)
    ensures |r| == |parts|
    ensures forall k :: 0 <= k < |parts| ==> r[k] == Lower(parts[k])
  {
    if |parts| == 0 then [] else [Lower(parts[0])] + LowerAll(parts[1..])
  }

  /** Lower-casing a split: the separator is not a letter, so splitting the
      lower-cased string gives the lower-cased pieces. */
  lemma {:induction false} SplitLower(s: string, c: char)
    requires !('A' <= c <= 'Z') && !('a' <= c <= 'z')
    ensures Split(Lower(s), c) == LowerAll(Split(s, c))
    decreases |s|
  {
    if |s| > 0 {
      var l := Lower(s);
      assert l[0] == LowerChar(s[0]) && l[1..] == Lower(s[1..]);
      SplitLower(s[1..], c);
      var r := Split(s[1..], c);
      if s[0] == c {
        assert Split(l, c) == [""] + LowerAll(r);
        assert LowerAll([""] + r) == [""] + LowerAll(r);
      } else {
        var lr := LowerAll(r);
        assert Split(l, c) == [[l[0]] + lr[0]] + lr[1..];
        assert Lower([s[0]] + r[0]) == [LowerChar(s[0])] + Lower(r[0]);
        assert LowerAll([[s[0]] + r[0]] + r[1..]) == [[l[0]] + lr[0]] + lr[1..];
      }
    }
  }

  /** `s.replace(a, b)` where `a` and `b` are single characters. */
  function Replace(s: string, a: char, b: char): string
    decreases |s|
  {
    if |s| == 0 then "" else [if s[0] == a then b else s[0]] + Replace(s[1..], a, b)
  }

  /** Replacing works character by character and keeps the length. */
  lemma {:induction false} ReplaceChars(s: string, a: char, b: char)
    ensures |Replace(s, a, b)| == |s|
    ensures forall i :: 0 <= i < |s| ==> Replace(s, a, b)[i] == (if s[i] == a then b else s[i])
    decreases |s|
  {
    if |s| > 0 {
      ReplaceChars(s[1..], a, b);
    }
  }

  /** `s.startswith(p)`. */
  predicate StartsWith(s: string, p: string) {
    |p| <= |s| && s[..|p|] == p
  }

  /** `s.endswith(p)`: case-sensitive, character by character. */
  predicate EndsWith(s: string, p: string) {
    |p| <= |s| && s[|s| - |p|..] == p
  }

  /** `needle in hay`, computed by trying every offset from the left. */
  predicate Contains(hay: string, needle: string)
    decreases |hay|
  {
    StartsWith(hay, needle) || (|hay| > 0 && Contains(hay[1..], needle))
  }

  /** `needle` occurs in `hay` starting at offset `i`. */
  predicate OccursAt(hay: string, needle: string, i: int) {
    0 <= i && i + |needle| <= |hay| && hay[i..i + |needle|] == needle
  }

  /** The search above finds `needle` exactly when it occurs at some offset of `hay`. */
  lemma {:induction false} ContainsIffOccurs(hay: string, needle: string)
    ensures Contains(hay, needle) <==> exists i :: OccursAt(hay, needle, i)
    decreases |hay|
  {
    if StartsWith(hay, needle) {
      assert OccursAt(hay, needle, 0);
    } else if |hay| == 0 {
    } else {
      ContainsIffOccurs(hay[1..], needle);
      if Contains(hay[1..], needle) {
        var i :| OccursAt(hay[1..], needle, i);
        assert hay[1..][i..i + |needle|] == hay[i + 1..i + 1 + |needle|];
        assert OccursAt(hay, needle, i + 1);
      }
      if exists i :: OccursAt(hay, needle, i) {
        var i :| OccursAt(hay, needle, i);
        assert i != 0;
        assert hay[1..][i - 1..i - 1 + |needle|] == hay[i..i + |needle|];
        assert OccursAt(hay[1..], needle, i - 1);
      }
    }
  }

  /** `sep.join(parts)`. */
  function Join(parts: seq<string>, sep: string): string
    decreases |parts|
  {
    if |parts| == 0 then ""
    else if |parts| == 1 then parts[0]
    else parts[0] + sep + Join(parts[1..], sep)
  }

  /** `s.split(c)` for a one-character separator: the pieces between the separators,
      empty pieces included, so `"".split(c)` is `[""]`. */
  function Split(s: string, c: char): (parts: seq<string>)
    ensures |parts| >= 1
    decreases |s|
  {
    if |s| == 0 then [""]
    else if s[0] == c then [""] + Split(s[1..], c)
    else var r := Split(s[1..], c); [[s[0]] + r[0]] + r[1..]
  }

  /** No piece of a split contains the separator. */
  lemma {:induction false} SplitPiecesFree(s: string, c: char)
    ensures forall k :: 0 <= k < |Split(s, c)| ==> c !in Split(s, c)[k]
    decreases |s|
  {
    if |s| > 0 {
      SplitPiecesFree(s[1..], c);
    }
  }

  /** A string without the separator splits into itself. */
  lemma {:induction false} SplitWithout(s: string, c: char)
    requires c !in s
    ensures Split(s, c) == [s]
    decreases |s|
  {
    if |s| > 0 {
      SplitWithout(s[1..], c);
      assert [s[0]] + s[1..] == s;
    }
  }

  /** Splitting distributes over a separator: the pieces of `a c b` are the pieces
      of `a` followed by the pieces of `b`. */
  lemma {:induction false} SplitAround(a: string, c: char, b: string)
    ensures Split(a + [c] + b, c) == Split(a, c) + Split(b, c)
    decreases |a|
  {
    var s := a + [c] + b;
    if |a| == 0 {
      assert s[0] == c && s[1..] == b;
    } else {
      assert s[0] == a[0];
      assert s[1..] == a[1..] + [c] + b;
      SplitAround(a[1..], c, b);
    }
  }

  lemma JoinCons(x: string, rest: seq<string>, sep: string)
    requires |rest| >= 1
    ensures Join([x] + rest, sep) == x + sep + Join(rest, sep)
  {
    assert ([x] + rest)[1..] == rest;
  }

  /** Joining the pieces of a split with the separator gives back the string. */
  lemma {:induction false} JoinSplit(s: string, c: char)
    ensures Join(Split(s, c), [c]) == s
    decreases |s|
  {
    if |s| == 0 {
    } else if s[0] == c {
      JoinSplit(s[1..], c);
      JoinCons("", Split(s[1..], c), [c]);
      assert s == [c] + s[1..];
    } else {
      var r := Split(s[1..], c);
      JoinSplit(s[1..], c);
      if |r| == 1 {
        assert Join(r, [c]) == r[0];
      } else {
        JoinCons([s[0]] + r[0], r[1..], [c]);
        JoinCons(r[0], r[1..], [c]);
        assert r == [r[0]] + r[1..];
      }
      assert s == [s[0]] + s[1..];
    }
  }

  /** Splitting a join of separator-free pieces gives back the pieces. */
  lemma {:induction false} SplitJoin(parts: seq<string>, c: char)
    requires |parts| >= 1
    requires forall k :: 0 <= k < |parts| ==> c !in parts[k]
    ensures Split(Join(parts, [c]), c) == parts
    decreases |parts|
  {
    SplitWithout(parts[0], c);
    if |parts| > 1 {
      SplitJoin(parts[1..], c);
      SplitAround(parts[0], c, Join(parts[1..], [c]));
      assert parts[0] + [c] + Join(parts[1..], [c]) == Join(parts, [c]);
      assert parts == [parts[0]] + parts[1..];
    }
  }

  /** `str(n)` for a natural number: its decimal digits, most significant first. */
  function NatText(n: nat): string
    decreases n
  {
    var digit := [(48 + n % 10) as char];
    if n < 10 then digit else NatText(n / 10) + digit
  }

  /** A string ends with whatever the string it ends with ends with. */
  lemma EndsWithTrans(s: string, t: string, p: string)
    requires EndsWith(s, t) && EndsWith(t, p)
    ensures EndsWith(s, p)
  {
    assert s[|s| - |p|..] == t[|t| - |p|..];
  }
}
