/**
 * The JavaScript string operations the component relies on: the leading
 * white space that `Number.parseInt` skips, `String.prototype.split` with a
 * one-character separator (`nextTrains.split(",")`), and the first piece of
 * a split on a longer separator (`name.split(" - ")[0]`).
 */
module JsText {

  /** ECMAScript's StrWhiteSpaceChar: the WhiteSpace and LineTerminator code points. */
  predicate IsJsWhiteSpace(c: char) {
    var k := c as int;
    k == 0x09 || k == 0x0B || k == 0x0C || k == 0x20 || k == 0xA0 || k == 0xFEFF
    || k == 0x1680 || (0x2000 <= k <= 0x200A) || k == 0x202F || k == 0x205F || k == 0x3000
    || k == 0x0A || k == 0x0D || k == 0x2028 || k == 0x2029
  }

  /** `s` without its leading white space. */
  function TrimStart(s: string): string {
    if s != [] && IsJsWhiteSpace(s[0]) then TrimStart(s[1..]) else s
  }

  /** TrimStart drops exactly the leading run of white space: what is left is a suffix that starts with something else. */
  lemma {:induction false} TrimStartDropsLeadingWhiteSpace(s: string)
    ensures var r := TrimStart(s);
            |r| <= |s| && r == s[|s| - |r|..] &&
            (r == [] || !IsJsWhiteSpace(r[0])) &&
            forall i :: 0 <= i < |s| - |r| ==> IsJsWhiteSpace(s[i])
  {
    if s != [] && IsJsWhiteSpace(s[0]) {
      TrimStartDropsLeadingWhiteSpace(s[1..]);
      var r := TrimStart(s[1..]);
      assert s[1..][|s| - 1 - |r|..] == s[|s| - |r|..];
      forall i | 0 <= i < |s| - |r|
        ensures IsJsWhiteSpace(s[i])
      {
        if i > 0 { assert s[i] == s[1..][i - 1]; }
      }
    }
  }

  /** Leading white space in front of a string is dropped by TrimStart. */
  lemma {:induction false} TrimStartSkips(w: string, s: string)
    requires forall i :: 0 <= i < |w| ==> IsJsWhiteSpace(w[i])
    ensures TrimStart(w + s) == TrimStart(s)
  {
    if w != [] {
      assert (w + s)[0] == w[0];
      assert (w + s)[1..] == w[1..] + s;
      assert TrimStart(w + s) == TrimStart(w[1..] + s);
      TrimStartSkips(w[1..], s);
    } else {
      assert w + s == s;
    }
  }

  /** Number of occurrences of `c` in `s`. */
  function Count(s: string, c: char): nat {
    if s == [] then 0 else (if s[0] == c then 1 else 0) + Count(s[1..], c)
  }

  /**
   * `s.split(sep)` for a one-character separator: one piece more than there
   * are separators, and no piece contains the separator.
   */
  function Split(s: string, sep: char): (parts: seq<string>)
    ensures |parts| == Count(s, sep) + 1
    ensures forall i :: 0 <= i < |parts| ==> sep !in parts[i]
  {
    if s == [] then [""]
    else
      var rest := Split(s[1..], sep);
      if s[0] == sep then [""] + rest
      else [[s[0]] + rest[0]] + rest[1..]
  }

  /** `parts.join(sep)`: the inverse of Split. */
  function Join(parts: seq<string>, sep: char): string {
    if parts == [] then ""
    else if |parts| == 1 then parts[0]
    else parts[0] + [sep] + Join(parts[1..], sep)
  }

  /** Splitting loses nothing and keeps the order of the pieces: joining them back gives `s`. */
  lemma {:induction false} JoinSplit(s: string, sep: char)
    ensures Join(Split(s, sep), sep) == s
  {
    if s != [] {
      var rest := Split(s[1..], sep);
      JoinSplit(s[1..], sep);
      if s[0] == sep {
        assert ([""] + rest)[1..] == rest;
        assert Join([""] + rest, sep) == [sep] + Join(rest, sep);
      } else {
        var parts := [[s[0]] + rest[0]] + rest[1..];
        assert parts[1..] == rest[1..];
        if |rest| > 1 {
          assert Join(parts, sep) == [s[0]] + rest[0] + [sep] + Join(rest[1..], sep);
        }
      }
    }
  }

  /** A separator-free prefix glues onto the first piece of what follows it. */
  lemma {:induction false} SplitAfterPlainPrefix(a: string, rest: string, sep: char)
    requires sep !in a
    ensures Split(a + rest, sep) == [a + Split(rest, sep)[0]] + Split(rest, sep)[1..]
  {
    var r := Split(rest, sep);
    if a == [] {
      assert a + rest == rest;
      assert a + r[0] == r[0];
      assert [r[0]] + r[1..] == r;
    } else {
      assert (a + rest)[0] == a[0];
      assert (a + rest)[1..] == a[1..] + rest;
      SplitAfterPlainPrefix(a[1..], rest, sep);
      assert [a[0]] + (a[1..] + r[0]) == a + r[0];
    }
  }

  /** Joining separator-free pieces and splitting again gives the same pieces back. */
  lemma {:induction false} SplitJoin(parts: seq<string>, sep: char)
    requires |parts| >= 1
    requires forall i :: 0 <= i < |parts| ==> sep !in parts[i]
    ensures Split(Join(parts, sep), sep) == parts
  {
    var a := parts[0];
    if |parts| == 1 {
      SplitAfterPlainPrefix(a, "", sep);
      assert a + "" == a;
    } else {
      var tail := Join(parts[1..], sep);
      SplitJoin(parts[1..], sep);
      assert ([sep] + tail)[0] == sep && ([sep] + tail)[1..] == tail;
      assert Split([sep] + tail, sep) == [""] + parts[1..];
      SplitAfterPlainPrefix(a, [sep] + tail, sep);
      assert Join(parts, sep) == a + ([sep] + tail);
      assert a + "" == a;
      assert ([""] + parts[1..])[1..] == parts[1..];
      assert [a] + parts[1..] == parts;
    }
  }

  /** `sep` occurs in `s` starting at index `i`. */
  predicate OccursAt(s: string, sep: string, i: nat) {
    i + |sep| <= |s| && s[i..i + |sep|] == sep
  }

  /** The first index at or after `from` where `sep` occurs, or `|s|` when there is none. */
  function FindFrom(s: string, sep: string, from: nat): (k: nat)
    requires from <= |s|
    ensures from <= k <= |s|
    ensures k == |s| || OccursAt(s, sep, k)
    ensures forall j :: from <= j < k ==> !OccursAt(s, sep, j)
    decreases |s| - from
  {
    if from + |sep| > |s| then |s|
    else if s[from..from + |sep|] == sep then from
    else FindFrom(s, sep, from + 1)
  }

  /**
   * `s.split(sep)[0]` for a non-empty separator: the longest prefix of `s`
   * in front of the first occurrence of `sep`, or all of `s` when `sep`
   * does not occur.
   */
  function PrefixBefore(s: string, sep: string): (r: string)
    requires sep != []
    ensures r <= s
    ensures |r| == |s| || OccursAt(s, sep, |r|)
    ensures forall j :: 0 <= j < |r| ==> !OccursAt(s, sep, j)
  {
    s[..FindFrom(s, sep, 0)]
  }
}
