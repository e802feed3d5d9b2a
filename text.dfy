/**
 * The JavaScript string operations the components rely on:
 * `String.prototype.includes`, `toLowerCase`, `trim`, `split` on a
 * one-character separator and `Array.prototype.join`.
 */
module Text {

  /** `s.startsWith(prefix)` */
  predicate StartsWith(s: string, prefix: string) {
    |prefix| <= |s| && s[..|prefix|] == prefix
  }

  /** `sub` occurs in `s` starting at index `i`. */
  predicate OccursAt(s: string, sub: string, i: int) {
    0 <= i <= |s| - |sub| && s[i..i + |sub|] == sub
  }

  /** `s.includes(sub)`: `sub` occurs somewhere in `s` (the empty string occurs everywhere). */
  predicate Contains(s: string, sub: string)
    ensures StartsWith(s, sub) ==> Contains(s, sub)
    ensures Contains(s, sub) ==> |sub| <= |s|
    decreases |s|
  {
    StartsWith(s, sub) || (|s| > 0 && Contains(s[1..], sub))
  }

  /** `includes` agrees with the positional definition of a substring occurrence. */
  lemma {:induction false} ContainsAt(s: string, sub: string)
    ensures Contains(s, sub) <==> exists i :: OccursAt(s, sub, i)
    decreases |s|
  {
    if StartsWith(s, sub) {
      assert OccursAt(s, sub, 0);
    } else if |s| == 0 {
    } else {
      ContainsAt(s[1..], sub);
      if exists i :: OccursAt(s, sub, i) {
        var i :| OccursAt(s, sub, i);
        assert i != 0;
        assert OccursAt(s[1..], sub, i - 1);
      }
      if Contains(s[1..], sub) {
        var i :| OccursAt(s[1..], sub, i);
        assert OccursAt(s, sub, i + 1);
      }
    }
  }

  /** A string lacking one of the characters of `sub` does not contain `sub`. */
  lemma MissingCharNotContained(s: string, sub: string, c: char)
    requires c in sub && c !in s
    ensures !Contains(s, sub)
  {
    ContainsAt(s, sub);
  }

  /** The empty search string is contained in every string. */
  lemma ContainsEmpty(s: string)
    ensures Contains(s, "")
  {
    assert StartsWith(s, "");
  }

  /** ASCII case mapping of one character. */
  function LowerChar(c: char): char {
    if 'A' <= c <= 'Z' then (c as int - 'A' as int + 'a' as int) as char else c
  }

  /** `s.toLowerCase()`, restricted to the ASCII letters: upper-case letters go, everything else stays. */
  function ToLower(s: string): (r: string)
    ensures |r| == |s|
    ensures forall i :: 0 <= i < |s| ==> !('A' <= r[i] <= 'Z')
    ensures forall i :: 0 <= i < |s| && !('A' <= s[i] <= 'Z') ==> r[i] == s[i]
    ensures forall i :: 0 <= i < |s| && 'A' <= s[i] <= 'Z' ==> r[i] as int == s[i] as int + 32
  {
    seq(|s|, i requires 0 <= i < |s| => LowerChar(s[i]))
  }

  /** Lower-casing twice is lower-casing once, and no upper-case ASCII letter survives it. */
  lemma ToLowerIdempotent(s: string)
    ensures ToLower(ToLower(s)) == ToLower(s)
    ensures forall i :: 0 <= i < |s| ==> !('A' <= ToLower(s)[i] <= 'Z')
  {
    assert forall i :: 0 <= i < |s| ==> ToLower(ToLower(s))[i] == ToLower(s)[i];
  }

  /**
   * The characters `trim` removes: the ECMAScript WhiteSpace set (TAB, VT,
   * FF, ZWNBSP and the Unicode space separators) and the LineTerminator set
   * (LF, CR, LS, PS).
   */
  predicate IsSpace(c: char) {
    || c == ' ' || c == '\t' || c == '\n' || c == '\r'
    || c == '\U{000B}' || c == '\U{000C}' || c == '\U{00A0}' || c == '\U{1680}'
    || ('\U{2000}' <= c <= '\U{200A}')
    || c == '\U{2028}' || c == '\U{2029}' || c == '\U{202F}' || c == '\U{205F}'
    || c == '\U{3000}' || c == '\U{FEFF}'
  }

  /** Leading white space removed: what is left is a suffix, and only spaces went. */
  function TrimStart(s: string): (r: string)
    ensures |r| <= |s| && r == s[|s| - |r|..]
    ensures forall k :: 0 <= k < |s| - |r| ==> IsSpace(s[k])
    ensures r == [] || !IsSpace(r[0])
    decreases |s|
  {
    if |s| > 0 && IsSpace(s[0]) then TrimStart(s[1..]) else s
  }

  /** Trailing white space removed: what is left is a prefix, and only spaces went. */
  function TrimEnd(s: string): (r: string)
    ensures |r| <= |s| && r == s[..|r|]
    ensures forall k :: |r| <= k < |s| ==> IsSpace(s[k])
    ensures r == [] || !IsSpace(r[|r| - 1])
    decreases |s|
  {
    if |s| > 0 && IsSpace(s[|s| - 1]) then TrimEnd(s[..|s| - 1]) else s
  }

  /** Neither end of `s` is white space. */
  predicate IsTrimmed(s: string) {
    s == [] || (!IsSpace(s[0]) && !IsSpace(s[|s| - 1]))
  }

  /** Every character of `s` outside the index range [i, j) is white space. */
  predicate SpacesOutside(s: string, i: int, j: int) {
    forall k :: 0 <= k < |s| && !(i <= k < j) ==> IsSpace(s[k])
  }

  /** `s.trim()`: a slice of `s`, with white space only outside it and at neither of its ends. */
  function Trim(s: string): (r: string)
    ensures IsTrimmed(r)
    ensures exists i :: OccursAt(s, r, i) && SpacesOutside(s, i, i + |r|)
  {
    var t := TrimStart(s);
    var r := TrimEnd(t);
    assert r == [] || r[0] == t[0];
    var i := |s| - |t|;
    assert OccursAt(s, r, i) && SpacesOutside(s, i, i + |r|);
    r
  }

  /** A string with no white space at either end is its own trim. */
  lemma TrimTrimmed(s: string)
    requires IsTrimmed(s)
    ensures Trim(s) == s
  {
  }

  /** `trim` is idempotent, and a trimmed string is exactly a fixed point of it. */
  lemma TrimIdempotent(s: string)
    ensures Trim(Trim(s)) == Trim(s)
    ensures IsTrimmed(s) <==> Trim(s) == s
  {
    TrimTrimmed(Trim(s));
    if IsTrimmed(s) { TrimTrimmed(s); }
  }

  /** Dropping leading white space from a trimmed string changes nothing. */
  lemma TrimStartTrimmed(x: string)
    requires IsTrimmed(x)
    ensures TrimStart(x) == x
  {
  }

  /** Dropping trailing white space from a trimmed string changes nothing. */
  lemma TrimEndTrimmed(x: string)
    requires IsTrimmed(x)
    ensures TrimEnd(x) == x
  {
  }

  /** The single space `join(", ")` puts before an item is removed again by `trim`. */
  lemma TrimAfterSpace(x: string)
    requires IsTrimmed(x)
    ensures Trim([' '] + x) == x
  {
    var s := [' '] + x;
    assert s[1..] == x;
    assert TrimStart(s) == TrimStart(x);
    TrimStartTrimmed(x);
    TrimEndTrimmed(x);
  }

  /** A string of white space only trims to the empty string. */
  lemma TrimBlank(s: string)
    requires forall k :: 0 <= k < |s| ==> IsSpace(s[k])
    ensures Trim(s) == ""
  {
  }

  /** `s.split(sep)` for a one-character separator: the pieces between separators, at least one. */
  function Split(s: string, sep: char): (parts: seq<string>)
    ensures |parts| >= 1
    ensures forall p :: p in parts ==> sep !in p
    decreases |s|
  {
    if |s| == 0 then [""]
    else if s[0] == sep then [""] + Split(s[1..], sep)
    else
      var rest := Split(s[1..], sep);
      [[s[0]] + rest[0]] + rest[1..]
  }

  /** The first piece is the longest prefix without the separator: the separator, if any, follows it. */
  lemma {:induction false} SplitFirst(s: string, sep: char)
    ensures |Split(s, sep)[0]| <= |s| && Split(s, sep)[0] == s[..|Split(s, sep)[0]|]
    ensures |Split(s, sep)[0]| < |s| ==> s[|Split(s, sep)[0]|] == sep
    decreases |s|
  {
    if |s| > 0 && s[0] != sep {
      SplitFirst(s[1..], sep);
    }
  }

  /** `items.join(sep)`: the items in order, `sep` between each two, nothing for no items. */
  function Join(items: seq<string>, sep: string): (r: string)
    ensures |items| == 0 ==> r == ""
    ensures |items| > 0 ==> StartsWith(r, items[0])
    ensures |items| > 1 ==> OccursAt(r, sep, |items[0]|)
    decreases |items|
  {
    if |items| == 0 then ""
    else if |items| == 1 then items[0]
    else items[0] + sep + Join(items[1..], sep)
  }

  /** Joining the pieces of a split with the separator restores the string. */
  lemma {:induction false} JoinSplit(s: string, sep: char)
    ensures Join(Split(s, sep), [sep]) == s
    decreases |s|
  {
    if |s| == 0 {
    } else if s[0] == sep {
      JoinSplit(s[1..], sep);
      assert s == [sep] + s[1..];
    } else {
      JoinSplit(s[1..], sep);
      var rest := Split(s[1..], sep);
      if |rest| == 1 {
        assert s == [s[0]] + s[1..];
      } else {
        assert rest == [rest[0]] + rest[1..];
        assert Join(rest, [sep]) == rest[0] + [sep] + Join(rest[1..], [sep]);
        var parts := [[s[0]] + rest[0]] + rest[1..];
        assert parts[1..] == rest[1..];
        assert s == [s[0]] + s[1..];
      }
    }
  }

  /** A string without the separator is one piece. */
  lemma {:induction false} SplitWithoutSep(s: string, sep: char)
    requires sep !in s
    ensures Split(s, sep) == [s]
    decreases |s|
  {
    if |s| > 0 {
      SplitWithoutSep(s[1..], sep);
      assert s == [s[0]] + s[1..];
    }
  }

  /** The first separator ends the first piece. */
  lemma {:induction false} SplitAtFirstSep(x: string, sep: char, y: string)
    requires sep !in x
    ensures Split(x + [sep] + y, sep) == [x] + Split(y, sep)
    decreases |x|
  {
    var s := x + [sep] + y;
    if |x| == 0 {
      assert s == [sep] + y;
      assert s[1..] == y;
    } else {
      assert s[1..] == x[1..] + [sep] + y;
      SplitAtFirstSep(x[1..], sep, y);
      assert [x[0]] + x[1..] == x;
    }
  }

  /** Every item with `pre` put in front of it. */
  function Prefixed(pre: string, xs: seq<string>): (r: seq<string>)
    ensures |r| == |xs|
  {
    seq(|xs|, i requires 0 <= i < |xs| => pre + xs[i])
  }

  /** An empty prefix changes no item. */
  lemma PrefixedEmpty(xs: seq<string>)
    ensures Prefixed("", xs) == xs
  {
    var r := Prefixed("", xs);
    forall i | 0 <= i < |xs| ensures r[i] == xs[i] {
      assert "" + xs[i] == xs[i];
    }
  }

  /**
   * Splitting a join whose separator is `sep` followed by `pad` gives back the
   * items, each but the first carrying the padding in front.
   */
  lemma {:induction false} SplitJoinPadded(p: string, items: seq<string>, sep: char, pad: string)
    requires |items| > 0
    requires sep !in p && sep !in pad
    requires forall x :: x in items ==> sep !in x
    ensures Split(p + Join(items, [sep] + pad), sep) == [p + items[0]] + Prefixed(pad, items[1..])
    decreases |items|
  {
    if |items| == 1 {
      SplitWithoutSep(p + items[0], sep);
    } else {
      var rest := Join(items[1..], [sep] + pad);
      assert p + Join(items, [sep] + pad) == (p + items[0]) + [sep] + (pad + rest);
      SplitAtFirstSep(p + items[0], sep, pad + rest);
      SplitJoinPadded(pad, items[1..], sep, pad);
      assert Prefixed(pad, items[1..]) == [pad + items[1]] + Prefixed(pad, items[2..]);
    }
  }

  /** Splitting a join on the same one-character separator restores the items. */
  lemma JoinThenSplit(items: seq<string>, sep: char)
    requires |items| > 0
    requires forall x :: x in items ==> sep !in x
    ensures Split(Join(items, [sep]), sep) == items
  {
    var j := Join(items, [sep]);
    assert Split(j, sep) == [items[0]] + items[1..] by {
      SplitJoinPadded("", items, sep, "");
      assert [sep] + "" == [sep];
      assert "" + j == j;
      assert "" + items[0] == items[0];
      PrefixedEmpty(items[1..]);
    }
    assert [items[0]] + items[1..] == items;
  }
}
