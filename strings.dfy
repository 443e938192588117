/** Go's `strings.Split`, `strings.SplitN(_, _, 2)` and `strings.Join`
    for a one-character separator, as the container setup uses them on
    layer digests, environment entries and overlay lower directories. */
module GoStrings {

  /** Position of the first `c` in `s` (`strings.Index`). */
  function IndexOf(s: string, c: char): (i: nat)
    requires c in s
    ensures i < |s| && s[i] == c && c !in s[..i]
    decreases |s|
  {
    if s[0] == c then 0 else 1 + IndexOf(s[1..], c)
  }

  /** `strings.Split(s, [sep])`: the pieces of `s` between occurrences of
      `sep`; there is always at least one piece, and exactly one when
      `sep` does not occur. */
  function Split(s: string, sep: char): (parts: seq<string>)
    ensures |parts| >= 1
    ensures |parts| == 1 <==> sep !in s
    decreases |s|
  {
    if sep in s then
      var p := IndexOf(s, sep);
      [s[..p]] + Split(s[p + 1..], sep)
    else
      [s]
  }

  /** `strings.Join(parts, [sep])`. */
  function Join(parts: seq<string>, sep: char): string
  {
    if |parts| == 0 then ""
    else if |parts| == 1 then parts[0]
    else parts[0] + [sep] + Join(parts[1..], sep)
  }

  /** `strings.SplitN(s, [sep], 2)`: two pieces around the first `sep`,
      or `s` alone when `sep` does not occur. */
  function SplitN2(s: string, sep: char): (parts: seq<string>)
    ensures |parts| == 2 <==> sep in s
    ensures |parts| == 1 <==> sep !in s
    ensures |parts| == 2 ==> sep !in parts[0] && parts[0] + [sep] + parts[1] == s
    ensures |parts| == 1 ==> parts[0] == s
  {
    if sep in s then
      var p := IndexOf(s, sep);
      assert s[..p] + [sep] + s[p + 1..] == s;
      [s[..p], s[p + 1..]]
    else
      [s]
  }

  /** The first occurrence of `c` in a string whose prefix `a` is free of
      `c` is the one right after `a`. */
  lemma {:induction false} IndexAfterPrefix(a: string, c: char, b: string)
    requires c !in a
    ensures c in a + [c] + b && IndexOf(a + [c] + b, c) == |a|
  {
    var s := a + [c] + b;
    assert s[|a|] == c;
    if a != [] {
      assert s[1..] == a[1..] + [c] + b;
      IndexAfterPrefix(a[1..], c, b);
    }
  }

  /** A string is the part before position `p`, the character there and
      the part after it. */
  lemma Reassemble(s: string, p: nat)
    requires p < |s|
    ensures s[..p] + [s[p]] + s[p + 1..] == s
  {
  }

  /** One step of `Split`: the piece before the first separator, then the
      split of what follows it. */
  lemma SplitUnfold(s: string, sep: char)
    requires sep in s
    ensures Split(s, sep) == [s[..IndexOf(s, sep)]] + Split(s[IndexOf(s, sep) + 1..], sep)
  {
  }

  /** No piece of a split contains the separator. */
  lemma {:induction false} SplitPartsFree(s: string, sep: char)
    ensures forall i :: 0 <= i < |Split(s, sep)| ==> sep !in Split(s, sep)[i]
    decreases |s|
  {
    if sep in s {
      var p := IndexOf(s, sep);
      SplitPartsFree(s[p + 1..], sep);
      SplitUnfold(s, sep);
    }
  }

  /** Joining the pieces of a split gives back the original string. */
  lemma {:induction false} JoinSplit(s: string, sep: char)
    ensures Join(Split(s, sep), sep) == s
    decreases |s|
  {
    if sep in s {
      var p := IndexOf(s, sep);
      var rest := Split(s[p + 1..], sep);
      JoinSplit(s[p + 1..], sep);
      SplitUnfold(s, sep);
      var parts := [s[..p]] + rest;
      assert parts[1..] == rest;
      assert Join(parts, sep) == s[..p] + [sep] + s[p + 1..];
      Reassemble(s, p);
    }
  }

  /** Splitting a join of non-empty-list pieces free of the separator gives
      back the pieces: the separator string loses nothing. */
  lemma {:induction false} SplitJoin(parts: seq<string>, sep: char)
    requires |parts| >= 1
    requires forall i :: 0 <= i < |parts| ==> sep !in parts[i]
    ensures Split(Join(parts, sep), sep) == parts
  {
    if |parts| > 1 {
      var tail := Join(parts[1..], sep);
      IndexAfterPrefix(parts[0], sep, tail);
      assert (parts[0] + [sep] + tail)[..|parts[0]|] == parts[0];
      assert (parts[0] + [sep] + tail)[|parts[0]| + 1..] == tail;
      SplitJoin(parts[1..], sep);
      assert parts == [parts[0]] + parts[1..];
    }
  }

  /** `SplitN(s, sep, 2)` agrees with `Split`: its first piece is the first
      field, and its second piece is every later field joined back,
      separators included. */
  lemma SplitN2IsSplitHead(s: string, sep: char)
    requires sep in s
    ensures SplitN2(s, sep)[0] == Split(s, sep)[0]
    ensures SplitN2(s, sep)[1] == Join(Split(s, sep)[1..], sep)
  {
    var p := IndexOf(s, sep);
    var rest := Split(s[p + 1..], sep);
    SplitUnfold(s, sep);
    assert ([s[..p]] + rest)[1..] == rest;
    JoinSplit(s[p + 1..], sep);
  }
}
