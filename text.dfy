/**
 * Character-level string helpers the handlers rely on: locating a character,
 * and Python's `str.split(sep)` for a one-character separator, together with
 * its inverse `sep.join(parts)`.
 */
module Text {

  datatype Option<T> = None | Some(value: T)

  /** Index of the first occurrence of `c` in `s`, if there is one. */
  function FirstIndex(s: string, c: char): (r: Option<nat>)
    ensures r.Some? ==> r.value < |s| && s[r.value] == c && c !in s[..r.value]
    ensures r.None? <==> c !in s
    decreases |s|
  {
    if s == [] then None
    else if s[0] == c then Some(0)
    else match FirstIndex(s[1..], c)
      case None => None
      case Some(i) =>
        assert s[1..][..i] == s[1..i + 1];
        assert s[..i + 1] == [s[0]] + s[1..i + 1];
        Some(i + 1)
  }

  /**
   * `s.split(sep)` as Python computes it: the pieces between consecutive
   * separators, empty pieces included, always at least one piece.
   */
  function Split(s: string, sep: char): (parts: seq<string>)
    ensures |parts| >= 1
    ensures |parts| == 1 <==> sep !in s
    ensures forall k :: 0 <= k < |parts| ==> sep !in parts[k]
    decreases |s|
  {
    match FirstIndex(s, sep)
    case None => [s]
    case Some(i) => [s[..i]] + Split(s[i + 1..], sep)
  }

  /** `sep.join(parts)`. */
  function Join(parts: seq<string>, sep: char): string
    requires |parts| >= 1
    decreases |parts|
  {
    if |parts| == 1 then parts[0] else parts[0] + [sep] + Join(parts[1..], sep)
  }

  /** The first piece is the prefix of `s` that ends at the first separator or at the end. */
  lemma FirstPiece(s: string, sep: char)
    ensures var p := Split(s, sep)[0];
      |p| <= |s| && s[..|p|] == p && (|p| == |s| || s[|p|] == sep)
  {
  }

  /** The second piece is the first piece of what follows the first separator. */
  lemma SecondIsFirstOfRest(s: string, sep: char, i: nat)
    requires FirstIndex(s, sep) == Some(i)
    ensures |Split(s, sep)| >= 2 && Split(s, sep)[1] == Split(s[i + 1..], sep)[0]
  {
    var tail := Split(s[i + 1..], sep);
    assert Split(s, sep) == [s[..i]] + tail;
    assert ([s[..i]] + tail)[1] == tail[0];
  }

  /** A prefix of `s[i + 1..]` is the slice of `s` that starts at `i + 1`. */
  lemma SliceOfSuffix(s: string, i: nat, p: string)
    requires i < |s|
    requires |p| <= |s| - (i + 1) && s[i + 1..][..|p|] == p
    ensures s[i + 1..i + 1 + |p|] == p
  {
    assert s[i + 1..i + 1 + |p|] == s[i + 1..][..|p|];
  }

  /**
   * The second piece (there is one when the separator occurs) is what follows
   * the first separator, up to the next separator or the end.
   */
  lemma SecondPiece(s: string, sep: char)
    requires sep in s
    ensures var i := FirstIndex(s, sep).value; var p := Split(s, sep)[1]; var e := i + 1 + |p|;
      e <= |s| && s[i + 1..e] == p && (e == |s| || s[e] == sep)
  {
    var i := FirstIndex(s, sep).value;
    SecondIsFirstOfRest(s, sep, i);
    FirstPiece(s[i + 1..], sep);
    SliceOfSuffix(s, i, Split(s, sep)[1]);
  }

  /** Joining a piece in front of at least one other puts a separator between them. */
  lemma JoinCons(head: string, tail: seq<string>, sep: char)
    requires |tail| >= 1
    ensures Join([head] + tail, sep) == head + [sep] + Join(tail, sep)
  {
    assert ([head] + tail)[1..] == tail;
  }

  /** Joining the pieces back together gives the original string. */
  lemma {:induction false} JoinSplit(s: string, sep: char)
    ensures Join(Split(s, sep), sep) == s
    decreases |s|
  {
    match FirstIndex(s, sep)
    case None =>
    case Some(i) =>
      var head, rest := s[..i], s[i + 1..];
      assert s == head + [sep] + rest;
      SplitAfter(head, sep, rest);
      JoinCons(head, Split(rest, sep), sep);
      JoinSplit(rest, sep);
  }

  /** The first separator of `head + [sep] + rest` is the one after `head`. */
  lemma FirstIndexAfter(head: string, sep: char, rest: string)
    requires sep !in head
    ensures FirstIndex(head + [sep] + rest, sep) == Some(|head|)
  {
    var s := head + [sep] + rest;
    var r := FirstIndex(s, sep);
    assert s[|head|] == sep;
    assert r.Some?;
    assert s[..|head|] == head;
  }

  /** A string with its first separator after `head` splits into `head` and the pieces of the rest. */
  lemma SplitAfter(head: string, sep: char, rest: string)
    requires sep !in head
    ensures Split(head + [sep] + rest, sep) == [head] + Split(rest, sep)
  {
    var s := head + [sep] + rest;
    FirstIndexAfter(head, sep, rest);
    assert s[..|head|] == head;
    assert s[|head| + 1..] == rest;
  }

  /** Splitting a join of separator-free pieces gives the pieces back. */
  lemma {:induction false} SplitJoin(parts: seq<string>, sep: char)
    requires |parts| >= 1
    requires forall k :: 0 <= k < |parts| ==> sep !in parts[k]
    ensures Split(Join(parts, sep), sep) == parts
    decreases |parts|
  {
    if |parts| > 1 {
      var head, rest := parts[0], parts[1..];
      assert parts == [head] + rest;
      JoinCons(head, rest, sep);
      SplitAfter(head, sep, Join(rest, sep));
      assert forall k :: 0 <= k < |rest| ==> sep !in rest[k] by {
        forall k | 0 <= k < |rest| ensures sep !in rest[k] { assert rest[k] == parts[k + 1]; }
      }
      SplitJoin(rest, sep);
    }
  }
}
