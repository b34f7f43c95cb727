/** Character-level helpers shared by the host tools and utilities that
    parse text: searching for a character, splitting on a separator and
    joining the pieces back. */
module Text {
  import opened ZxStatus

  /** The first position of `c` in `s`, as `memchr`/`strchr` find it. */
  function IndexOf(s: string, c: char): (r: Option<nat>)
    ensures r.Some? ==> r.value < |s| && s[r.value] == c
    ensures r.Some? ==> forall k :: 0 <= k < r.value ==> s[k] != c
    ensures r.None? <==> c !in s
  {
    if s == [] then None
    else if s[0] == c then Some(0)
    else match IndexOf(s[1..], c)
      case None => None
      case Some(i) => Some(i + 1)
  }

  /** Number of occurrences of `c` in `s`. */
  function Occurrences(s: string, c: char): nat
  {
    if s == [] then 0 else (if s[0] == c then 1 else 0) + Occurrences(s[1..], c)
  }

  /** The pieces of `s` between occurrences of `sep`. */
  function Split(s: string, sep: char): (parts: seq<string>)
    ensures |parts| == Occurrences(s, sep) + 1
    ensures forall k :: 0 <= k < |parts| ==> sep !in parts[k]
    decreases |s|
  {
    match IndexOf(s, sep)
    case None =>
      OccurrencesAbsent(s, sep);
      [s]
    case Some(i) =>
      assert Occurrences(s, sep) == Occurrences(s[i + 1..], sep) + 1 by {
        OccurrencesSplit(s, sep, i);
      }
      [s[..i]] + Split(s[i + 1..], sep)
  }

  lemma {:induction false} OccurrencesAbsent(s: string, c: char)
    requires c !in s
    ensures Occurrences(s, c) == 0
  {
    if s != [] {
      OccurrencesAbsent(s[1..], c);
    }
  }

  lemma {:induction false} OccurrencesSplit(s: string, c: char, i: nat)
    requires i < |s| && s[i] == c && forall k :: 0 <= k < i ==> s[k] != c
    ensures Occurrences(s, c) == Occurrences(s[i + 1..], c) + 1
  {
    if i > 0 {
      OccurrencesSplit(s[1..], c, i - 1);
      assert s[1..][i..] == s[i + 1..];
    }
  }

  /** The pieces joined with `sep` between them. */
  function Join(parts: seq<string>, sep: char): string
    requires parts != []
  {
    if |parts| == 1 then parts[0] else parts[0] + [sep] + Join(parts[1..], sep)
  }

  /** Splitting loses nothing: joining the pieces gives the text back. */
  lemma {:induction false} JoinSplit(s: string, sep: char)
    ensures Join(Split(s, sep), sep) == s
    decreases |s|
  {
    match IndexOf(s, sep)
    case None =>
    case Some(i) =>
      JoinSplit(s[i + 1..], sep);
      assert s == s[..i] + [sep] + s[i + 1..];
  }

  /** Joining pieces free of the separator and splitting again gives the
      pieces back. */
  lemma {:induction false} SplitJoin(parts: seq<string>, sep: char)
    requires parts != []
    requires forall k :: 0 <= k < |parts| ==> sep !in parts[k]
    ensures Split(Join(parts, sep), sep) == parts
    decreases |parts|
  {
    if |parts| > 1 {
      var s := Join(parts, sep);
      var rest := Join(parts[1..], sep);
      assert s == parts[0] + [sep] + rest;
      IndexOfPrefix(parts[0], rest, sep);
      assert s[|parts[0]| + 1..] == rest;
      assert s[..|parts[0]|] == parts[0];
      SplitJoin(parts[1..], sep);
    } else {
      assert IndexOf(parts[0], sep).None?;
    }
  }

  lemma IndexOfPrefix(a: string, b: string, c: char)
    requires c !in a
    ensures IndexOf(a + [c] + b, c) == Some(|a|)
  {
    var s := a + [c] + b;
    var r := IndexOf(s, c);
    assert s[|a|] == c;
    assert r.Some?;
    assert forall k :: 0 <= k < |a| ==> s[k] == a[k];
  }

  /** Splitting text made of two parts joined by the separator gives the
      pieces of each part. */
  lemma {:induction false} SplitConcat(a: string, b: string, sep: char)
    ensures Split(a + [sep] + b, sep) == Split(a, sep) + Split(b, sep)
    decreases |a|
  {
    var s := a + [sep] + b;
    match IndexOf(a, sep)
    case None =>
      IndexOfPrefix(a, b, sep);
      assert s[..|a|] == a;
      assert s[|a| + 1..] == b;
      calc {
        Split(s, sep);
        { SplitAt(s, sep, |a|); }
        [a] + Split(b, sep);
      }
    case Some(i) =>
      IndexOfInPrefix(a, [sep] + b, sep, i);
      assert s == a + ([sep] + b);
      assert s[..i] == a[..i];
      assert s[i + 1..] == a[i + 1..] + [sep] + b;
      calc {
        Split(s, sep);
        { SplitAt(s, sep, i); }
        [a[..i]] + Split(a[i + 1..] + [sep] + b, sep);
        { SplitConcat(a[i + 1..], b, sep); }
        [a[..i]] + (Split(a[i + 1..], sep) + Split(b, sep));
        ([a[..i]] + Split(a[i + 1..], sep)) + Split(b, sep);
        { SplitAt(a, sep, i); }
        Split(a, sep) + Split(b, sep);
      }
  }

  /** Split takes the text before the first separator as its first piece. */
  lemma SplitAt(s: string, sep: char, i: nat)
    requires IndexOf(s, sep) == Some(i)
    ensures Split(s, sep) == [s[..i]] + Split(s[i + 1..], sep)
  {
  }

  /** The first `c` of `a` is also the first `c` of `a` followed by anything. */
  lemma IndexOfInPrefix(a: string, b: string, c: char, i: nat)
    requires IndexOf(a, c) == Some(i)
    ensures IndexOf(a + b, c) == Some(i)
  {
    var s := a + b;
    assert s[i] == c;
    assert forall k :: 0 <= k < i ==> s[k] == a[k];
  }

  const NUL: char := '\0'

  /** The C string held by a buffer: everything before its first NUL. */
  function CString(buf: string): (s: string)
    ensures NUL !in s
    ensures |s| <= |buf| && s == buf[..|s|]
    ensures |s| < |buf| ==> buf[|s|] == NUL
  {
    match IndexOf(buf, NUL)
    case None => buf
    case Some(i) => buf[..i]
  }

  /** A string written with its terminator in front of anything reads
      back as that string. */
  lemma CStringOfTerminated(str: string, rest: string)
    requires NUL !in str
    ensures CString(str + [NUL] + rest) == str
  {
    IndexOfPrefix(str, rest, NUL);
  }

  /** The names "." and "..", which filesystems refuse to unlink, rename
      or link. */
  predicate IsDotName(name: string)
  {
    name == "." || name == ".."
  }
}
