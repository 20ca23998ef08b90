/**
 * The parts of Go's strings, bytes and string-conversion behaviour the service relies on.
 * A Go string is a sequence of bytes; here it is a `string` whose characters each hold
 * one byte (IsByteString), and `string(b)` / `[]byte(s)` are FromBytes / ToBytes.
 */
module Strings {
  import opened Wrappers

  type Byte = b: int | 0 <= b < 256

  predicate IsByteString(s: string) {
    forall i :: 0 <= i < |s| ==> s[i] as int < 256
  }

  /** Go's `string(b)` for a byte slice. */
  function FromBytes(bs: seq<Byte>): (s: string)
    ensures |s| == |bs| && IsByteString(s)
    ensures forall i :: 0 <= i < |bs| ==> s[i] as int == bs[i]
  {
    seq(|bs|, i requires 0 <= i < |bs| => bs[i] as char)
  }

  /** Go's `[]byte(s)`. */
  function ToBytes(s: string): (bs: seq<Byte>)
    requires IsByteString(s)
    ensures |bs| == |s|
    ensures forall i :: 0 <= i < |s| ==> bs[i] == s[i] as int
  {
    seq(|s|, i requires 0 <= i < |s| => s[i] as int)
  }

  lemma FromToBytes(s: string)
    requires IsByteString(s)
    ensures FromBytes(ToBytes(s)) == s
  {
    assert forall i :: 0 <= i < |s| ==> FromBytes(ToBytes(s))[i] == s[i];
  }

  /** strings.HasPrefix */
  predicate HasPrefix(s: string, prefix: string) {
    |prefix| <= |s| && s[..|prefix|] == prefix
  }

  /** ASCII lower-casing of one byte. */
  function LowerAscii(c: char): char {
    if 'A' <= c <= 'Z' then (c as int + 32) as char else c
  }

  /** Case-insensitive comparison of two ASCII strings (Go's ascii.EqualFold). */
  predicate EqualFold(a: string, b: string) {
    |a| == |b| && forall i :: 0 <= i < |a| ==> LowerAscii(a[i]) == LowerAscii(b[i])
  }

  /** Index of the first occurrence of `c` in `s` (strings.IndexByte), if any. */
  function IndexOf(s: string, c: char): (r: Option<nat>)
    ensures r.None? <==> c !in s
    ensures r.Some? ==> r.value < |s| && s[r.value] == c && c !in s[..r.value]
  {
    if |s| == 0 then None
    else if s[0] == c then Some(0)
    else
      var rest := IndexOf(s[1..], c);
      assert s[1..] == s[1..];
      if rest.None? then None
      else
        assert s[..rest.value + 1] == [s[0]] + s[1..][..rest.value];
        Some(rest.value + 1)
  }

  /** strings.Cut: the text before and after the first `sep`, or None when `sep` does not occur. */
  function Cut(s: string, sep: char): (r: Option<(string, string)>)
    ensures r.None? <==> sep !in s
    ensures r.Some? ==> s == r.value.0 + [sep] + r.value.1 && sep !in r.value.0
  {
    match IndexOf(s, sep)
    case None => None
    case Some(k) =>
      assert s == s[..k] + [sep] + s[k + 1..];
      Some((s[..k], s[k + 1..]))
  }

  lemma {:induction false} CutAtFirst(a: string, sep: char, b: string)
    requires sep !in a
    ensures Cut(a + [sep] + b, sep) == Some((a, b))
  {
    var s := a + [sep] + b;
    assert s[|a|] == sep;
    assert s[..|a|] == a;
    var k := IndexOf(s, sep).value;
    assert k == |a|;
    assert s[|a| + 1..] == b;
  }

  /** The first field of strings.SplitN(s, sep, 2): the text before the first `sep`, or all of `s`. */
  function BeforeFirst(s: string, sep: char): (r: string)
    ensures HasPrefix(s, r)
    ensures sep !in r
    ensures r == s || (|r| < |s| && s[|r|] == sep)
  {
    match IndexOf(s, sep)
    case None => s
    case Some(k) => s[..k]
  }

  /** strings.Join(xs, [sep]) */
  function Join(xs: seq<string>, sep: char): string
    decreases |xs|
  {
    if |xs| == 0 then ""
    else if |xs| == 1 then xs[0]
    else xs[0] + [sep] + Join(xs[1..], sep)
  }

  /** strings.Split(s, [sep]): the pieces between the occurrences of `sep`; never empty. */
  function Split(s: string, sep: char): (r: seq<string>)
    ensures |r| >= 1
    decreases |s|
  {
    if |s| == 0 then [""]
    else if s[0] == sep then [""] + Split(s[1..], sep)
    else
      var rest := Split(s[1..], sep);
      [[s[0]] + rest[0]] + rest[1..]
  }

  /** No piece of `xs` contains the separator. */
  predicate Separable(xs: seq<string>, sep: char) {
    forall i :: 0 <= i < |xs| ==> sep !in xs[i]
  }

  /** Splitting a text that starts with a separator-free piece and then a separator. */
  lemma {:induction false} SplitPiece(a: string, sep: char, b: string)
    requires sep !in a
    ensures Split(a + [sep] + b, sep) == [a] + Split(b, sep)
    decreases |a|
  {
    if |a| == 0 {
      assert (a + [sep] + b)[1..] == b;
    } else {
      assert (a + [sep] + b)[1..] == a[1..] + [sep] + b;
      SplitPiece(a[1..], sep, b);
      assert [a[0]] + a[1..] == a;
    }
  }

  /** Splitting a separator-free text gives that text alone. */
  lemma {:induction false} SplitSingle(a: string, sep: char)
    requires sep !in a
    ensures Split(a, sep) == [a]
    decreases |a|
  {
    if |a| > 0 {
      SplitSingle(a[1..], sep);
      assert [a[0]] + a[1..] == a;
    }
  }

  /** Split undoes Join for every non-empty list of separator-free pieces. */
  lemma {:induction false} SplitJoin(xs: seq<string>, sep: char)
    requires |xs| >= 1 && Separable(xs, sep)
    ensures Split(Join(xs, sep), sep) == xs
    decreases |xs|
  {
    if |xs| == 1 {
      SplitSingle(xs[0], sep);
    } else {
      SplitJoin(xs[1..], sep);
      SplitPiece(xs[0], sep, Join(xs[1..], sep));
      assert [xs[0]] + xs[1..] == xs;
    }
  }

  /** The empty list does not survive: it comes back as one empty piece. */
  lemma SplitJoinEmpty(sep: char)
    ensures Split(Join([], sep), sep) == [""]
  {
  }

  /** Join undoes Split on every text. */
  lemma {:induction false} JoinSplit(s: string, sep: char)
    ensures Join(Split(s, sep), sep) == s
    decreases |s|
  {
    if |s| > 0 {
      var rest := Split(s[1..], sep);
      JoinSplit(s[1..], sep);
      if s[0] == sep {
        assert Split(s, sep) == [""] + rest;
        assert ([""] + rest)[1..] == rest;
        assert s == [sep] + s[1..];
      } else {
        var parts := [[s[0]] + rest[0]] + rest[1..];
        assert Split(s, sep) == parts;
        if |rest| == 1 {
          assert Join(rest, sep) == rest[0];
        } else {
          assert Join(rest, sep) == rest[0] + [sep] + Join(rest[1..], sep);
          assert parts[1..] == rest[1..];
        }
      }
    }
  }
}
