/** The argument and path handling of the test runner: splitting the
    `-t` list of test names, matching directory entries against it,
    joining and creating output directories, and reading the `-w`
    watchdog timeout. */
module Runtests {
  import opened ZxStatus
  import Text

  /** Longest file name strncmp compares (NAME_MAX of limits.h). */
  const NAME_MAX: nat := 255
  /** Size of a path buffer, terminator included (PATH_MAX). */
  const PATH_MAX: nat := 4096
  /** The range of a 64-bit `long`. */
  const LONG_MAX: int := 0x7fff_ffff_ffff_ffff
  const LONG_MIN: int := -0x8000_0000_0000_0000

  // ---------------------------------------------------------------------
  // The -t list of test names
  // ---------------------------------------------------------------------

  /** One strtok_r(…, ",", …) step on the unscanned rest of the input:
      commas in front are skipped; the token runs to the next comma or
      the end, and scanning resumes after that comma. None once only
      commas are left. */
  function Strtok(s: string): (r: Option<(string, string)>)
    ensures r.Some? ==> r.value.0 != [] && ',' !in r.value.0 && |r.value.1| < |s|
    ensures r.None? <==> forall k :: 0 <= k < |s| ==> s[k] == ','
    decreases |s|
  {
    if s == [] then None
    else if s[0] == ',' then Strtok(s[1..])
    else match Text.IndexOf(s, ',')
      case None => Some((s, []))
      case Some(i) => Some((s[..i], s[i + 1..]))
  }

  /** Every token successive strtok_r calls return. */
  function Tokens(s: string): seq<string>
    decreases |s|
  {
    match Strtok(s)
    case None => []
    case Some((token, rest)) => [token] + Tokens(rest)
  }

  /** The pieces that are not empty. */
  function NonEmpty(parts: seq<string>): (r: seq<string>)
    ensures |r| <= |parts|
    ensures |r| == |parts| <==> forall k :: 0 <= k < |parts| ==> parts[k] != []
    ensures |r| == |parts| ==> r == parts
  {
    if parts == [] then []
    else if parts[0] == [] then NonEmpty(parts[1..])
    else [parts[0]] + NonEmpty(parts[1..])
  }

  /** strtok_r yields exactly the non-empty pieces between commas. */
  lemma {:induction false} TokensAreNonEmptyPieces(s: string)
    ensures Tokens(s) == NonEmpty(Text.Split(s, ','))
    decreases |s|
  {
    if s == [] {
      assert Text.Split(s, ',') == [s];
    } else if s[0] == ',' {
      assert Tokens(s) == Tokens(s[1..]);
      assert Text.IndexOf(s, ',') == Some(0);
      var rest := Text.Split(s[1..], ',');
      assert Text.Split(s, ',') == [[]] + rest;
      assert ([[]] + rest)[1..] == rest;
      assert NonEmpty([[]] + rest) == NonEmpty(rest);
      TokensAreNonEmptyPieces(s[1..]);
    } else {
      match Text.IndexOf(s, ',')
      case None =>
        assert Strtok(s) == Some((s, []));
        assert Tokens(s) == [s];
        assert Text.Split(s, ',') == [s];
      case Some(i) =>
        assert Strtok(s) == Some((s[..i], s[i + 1..]));
        var rest := Text.Split(s[i + 1..], ',');
        assert Text.Split(s, ',') == [s[..i]] + rest;
        assert ([s[..i]] + rest)[1..] == rest;
        assert NonEmpty([s[..i]] + rest) == [s[..i]] + NonEmpty(rest);
        TokensAreNonEmptyPieces(s[i + 1..]);
    }
  }

  /** The number of names ParseTestNames expects: one more than the
      commas after the first character (the count loop resumes each
      search one character past where it stands, so a comma in front is
      not counted). */
  function TestNameCount(input: string): nat
    requires input != []
  {
    Text.Occurrences(input[1..], ',') + 1
  }

  /** The text whose comma-separated pieces are the names: the input
      without a comma in front. */
  function NameList(input: string): string
    requires input != []
  {
    if input[0] == ',' then input[1..] else input
  }

  /** There are exactly as many pieces of the name list as ParseTestNames
      counts names, and strtok_r yields its non-empty ones. */
  lemma NameListPieces(input: string)
    requires input != []
    ensures |Text.Split(NameList(input), ',')| == TestNameCount(input)
    ensures Tokens(input) == NonEmpty(Text.Split(NameList(input), ','))
  {
    TokensAreNonEmptyPieces(input);
    if input[0] == ',' {
      assert Text.IndexOf(input, ',') == Some(0);
      assert Text.Split(input, ',') == [[]] + Text.Split(input[1..], ',');
      TokensAreNonEmptyPieces(input[1..]);
    } else {
      assert Text.Occurrences(input, ',') == Text.Occurrences(input[1..], ',');
    }
  }

  /** ParseTestNames succeeds exactly when no piece of the list is
      empty, and then yields the pieces themselves: commas + 1 names,
      none empty and none holding a comma. */
  lemma ParseTestNamesSplit(input: string)
    requires input != []
    ensures |Tokens(input)| == TestNameCount(input) <==>
      forall k :: 0 <= k < |Text.Split(NameList(input), ',')| ==> Text.Split(NameList(input), ',')[k] != []
    ensures |Tokens(input)| == TestNameCount(input) ==>
      && Tokens(input) == Text.Split(NameList(input), ',')
      && Text.Join(Tokens(input), ',') == NameList(input)
  {
    NameListPieces(input);
    Text.JoinSplit(NameList(input), ',');
  }

  /** ParseTestNames with the first token checked like the others: the
      names when there are as many tokens as the count loop counted,
      failure otherwise. The input must be non-empty: for "" the count
      loop would search past the terminator. */
  method ParseTestNames(input: string) returns (ok: bool, names: seq<string>)
    requires input != []
    ensures ok <==> |Tokens(input)| == TestNameCount(input)
    ensures ok ==> names == Tokens(input) && |names| == TestNameCount(input)
    ensures !ok ==> names == []
  {
    var numTestNames := CountTestNames(input);
    NameListPieces(input);
    ok, names := Tokenize(input, numTestNames);
  }

  /** The count loop: one name, plus one per comma found searching from
      one character past the previous stop. */
  method CountTestNames(input: string) returns (numTestNames: nat)
    requires input != []
    ensures numTestNames == TestNameCount(input)
  {
    numTestNames := 0;
    var tmp: Option<nat> := Some(0);
    while tmp.Some?
      invariant tmp.Some? ==> tmp.value < |input|
      invariant tmp.Some? ==> numTestNames + 1 + Text.Occurrences(input[tmp.value + 1..], ',') == TestNameCount(input)
      invariant tmp.None? ==> numTestNames == TestNameCount(input)
      decreases if tmp.Some? then |input| - tmp.value else 0
    {
      numTestNames := numTestNames + 1;
      var from := tmp.value + 1;
      match Text.IndexOf(input[from..], ',')
      case None =>
        Text.OccurrencesAbsent(input[from..], ',');
        tmp := None;
      case Some(k) =>
        Text.OccurrencesSplit(input[from..], ',', k);
        assert input[from..][k + 1..] == input[from + k + 1..];
        tmp := Some(from + k);
    }
  }

  /** The tokenizing loop: `count` strtok_r calls, failing as soon as one
      returns NULL, the first one included. */
  method Tokenize(input: string, count: nat) returns (ok: bool, names: seq<string>)
    requires 1 <= count && |Tokens(input)| <= count
    ensures ok <==> |Tokens(input)| == count
    ensures ok ==> names == Tokens(input)
    ensures !ok ==> names == []
  {
    var first := Strtok(input);
    if first.None? {
      return false, [];
    }
    names := [first.value.0];
    var nextToken := first.value.1;
    var i := 1;
    while i < count
      invariant 1 <= i <= count
      invariant i <= |Tokens(input)| && names == Tokens(input)[..i]
      invariant Tokens(nextToken) == Tokens(input)[i..]
    {
      var token := Strtok(nextToken);
      if token.None? {
        return false, [];
      }
      names := names + [token.value.0];
      nextToken := token.value.1;
      i := i + 1;
    }
    assert names == Tokens(input);
    ok := true;
  }

  /** ParseTestNames as written: the first strtok_r result is stored
      without a check, so a NULL name (None) can be returned with
      success. */
  function ParseTestNamesAsWritten(input: string): (r: Option<seq<Option<string>>>)
    requires input != []
    ensures r.Some? ==> |r.value| == TestNameCount(input)
  {
    var n := TestNameCount(input);
    var tokens := Tokens(input);
    if |tokens| >= n then Some(Present(tokens[..n]))
    else if n == 1 then Some([None])
    else None
  }

  function Present(names: seq<string>): (r: seq<Option<string>>)
    ensures |r| == |names| && forall k :: 0 <= k < |r| ==> r[k] == Some(names[k])
  {
    if names == [] then [] else [Some(names[0])] + Present(names[1..])
  }

  /** A lone comma is accepted as one name that is NULL, which the
      runner then hands to strncmp. */
  lemma ParseTestNamesLoneComma()
    ensures ParseTestNamesAsWritten(",") == Some([None])
  {
    assert Tokens(",") == [];
  }

  /** The check on the first token changes nothing else: as written,
      parsing succeeds with only real names exactly when the corrected
      parse succeeds, and with the same names. */
  lemma ParseTestNamesAsWrittenAgrees(input: string)
    requires input != []
    ensures (ParseTestNamesAsWritten(input).Some? && None !in ParseTestNamesAsWritten(input).value)
        <==> |Tokens(input)| == TestNameCount(input)
    ensures |Tokens(input)| == TestNameCount(input) ==>
      ParseTestNamesAsWritten(input) == Some(Present(Tokens(input)))
  {
    NameListPieces(input);
    var n := TestNameCount(input);
    if |Tokens(input)| >= n {
      assert Tokens(input)[..n] == Tokens(input);
    } else if n == 1 {
      assert ParseTestNamesAsWritten(input).value[0] == None;
    }
  }

  // ---------------------------------------------------------------------
  // Matching directory entries
  // ---------------------------------------------------------------------

  /** strncmp(a, b, n) == 0: the strings agree on their first n
      characters, terminator included. */
  predicate StrnEqual(a: string, b: string, n: nat)
  {
    a[..if |a| < n then |a| else n] == b[..if |b| < n then |b| else n]
  }

  /** MatchTestNames: with no filter every entry matches; otherwise an
      entry matches when some filter name equals it (compared on the
      first NAME_MAX characters). */
  method MatchTestNames(direntName: string, filterNames: seq<string>, numFilterNames: int) returns (matched: bool)
    requires numFilterNames <= |filterNames|
    ensures matched <==>
      (numFilterNames <= 0 || exists i :: 0 <= i < numFilterNames && StrnEqual(filterNames[i], direntName, NAME_MAX))
  {
    if numFilterNames <= 0 {
      return true;
    }
    var i := 0;
    while i < numFilterNames
      invariant 0 <= i <= numFilterNames
      invariant forall j :: 0 <= j < i ==> !StrnEqual(filterNames[j], direntName, NAME_MAX)
    {
      if StrnEqual(filterNames[i], direntName, NAME_MAX) {
        return true;
      }
      i := i + 1;
    }
    return false;
  }

  /** For names shorter than NAME_MAX the comparison is plain equality. */
  lemma StrnEqualShort(a: string, b: string)
    requires |a| < NAME_MAX || |b| < NAME_MAX
    ensures StrnEqual(a, b, NAME_MAX) <==> a == b
  {
  }

  /** Longer names match as soon as their first NAME_MAX characters do. */
  lemma StrnEqualLong(a: string, b: string)
    requires |a| >= NAME_MAX && |b| >= NAME_MAX
    ensures StrnEqual(a, b, NAME_MAX) <==> a[..NAME_MAX] == b[..NAME_MAX]
  {
  }

  // ---------------------------------------------------------------------
  // Output paths
  // ---------------------------------------------------------------------

  /** "parent/child". */
  function JoinedPath(parent: string, child: string): string
  {
    parent + "/" + child
  }

  /** The components of a joined path are those of the parent followed
      by those of the child. */
  lemma JoinedPathComponents(parent: string, child: string)
    ensures Text.Split(JoinedPath(parent, child), '/') == Text.Split(parent, '/') + Text.Split(child, '/')
  {
    Text.SplitConcat(parent, child, '/');
  }

  /** JoinPath: snprintf of "parent/child" into `outLen` bytes; -1
      (ENAMETOOLONG) when the path and its terminator do not fit, in
      which case the buffer holds the truncated path. */
  method JoinPath(parent: string, child: string, out: array<char>, outLen: nat) returns (r: int)
    requires outLen <= out.Length
    requires Text.NUL !in parent && Text.NUL !in child
    modifies out
    ensures r == 0 || r == -1
    ensures r == 0 <==> |JoinedPath(parent, child)| < outLen
    ensures r == 0 ==> Text.CString(out[..]) == JoinedPath(parent, child)
    ensures out[..] == Snprintf(JoinedPath(parent, child), old(out[..]), outLen)
  {
    var full := parent + "/" + child;
    WriteTruncated(full, out, outLen);
    if |full| < outLen {
      assert out[..] == full + [Text.NUL] + out[|full| + 1..];
      Text.CStringOfTerminated(full, out[|full| + 1..]);
    }
    r := if |full| >= outLen then -1 else 0;
  }

  /** The buffer after snprintf(buf, len, "%s", text): as much of the
      text as fits before a terminator, the rest as it was; nothing
      written when len is 0. */
  function Snprintf(text: string, buf: string, len: nat): (r: string)
    requires len <= |buf|
    ensures |r| == |buf|
  {
    if len == 0 then buf
    else
      var n := if |text| < len then |text| else len - 1;
      text[..n] + [Text.NUL] + buf[n + 1..]
  }

  /** snprintf's copy: characters first, then the terminator. */
  method WriteTruncated(text: string, out: array<char>, len: nat)
    requires len <= out.Length
    modifies out
    ensures out[..] == Snprintf(text, old(out[..]), len)
  {
    if len > 0 {
      var n := if |text| < len then |text| else len - 1;
      var k := 0;
      while k < n
        invariant k <= n
        invariant forall j :: 0 <= j < k ==> out[j] == text[j]
        invariant forall j :: k <= j < out.Length ==> out[j] == old(out[j])
      {
        out[k] := text[k];
        k := k + 1;
      }
      out[n] := Text.NUL;
      assert out[..] == text[..n] + [Text.NUL] + old(out[..])[n + 1..];
    }
  }

  /** The proper prefixes of `dir` that end just before a '/' at index
      1..n-1, shortest first. */
  function SlashPrefixes(dir: string, n: nat): (r: seq<string>)
    requires n <= |dir|
    ensures forall k :: 0 <= k < |r| ==> |r[k]| < n
  {
    if n == 0 then []
    else SlashPrefixes(dir, n - 1) + (if n - 1 > 0 && dir[n - 1] == '/' then [dir[..n - 1]] else [])
  }

  /** The prefixes are exactly the parents of `dir` up to index n, each
      ending before a '/', shortest first. */
  lemma {:induction false} SlashPrefixesAreParents(dir: string, n: nat)
    requires n <= |dir|
    ensures forall k :: 0 <= k < |SlashPrefixes(dir, n)| ==>
      var p := SlashPrefixes(dir, n)[k];
      0 < |p| && p == dir[..|p|] && dir[|p|] == '/'
    ensures forall k :: 0 < k < n && dir[k] == '/' ==> dir[..k] in SlashPrefixes(dir, n)
    ensures forall j, k :: 0 <= j < k < |SlashPrefixes(dir, n)| ==>
      |SlashPrefixes(dir, n)[j]| < |SlashPrefixes(dir, n)[k]|
  {
    if n > 0 {
      SlashPrefixesAreParents(dir, n - 1);
    }
  }

  /** Every directory MkDirAll asks mkdir for, in order: each prefix
      ending before a '/' (a leading '/' excepted), then the path itself. */
  function MkdirTargets(dir: string): seq<string>
  {
    SlashPrefixes(dir, |dir|) + [dir]
  }

  lemma {:induction false} SlashPrefixesGrow(dir: string, n: nat, m: nat)
    requires n <= m <= |dir|
    ensures SlashPrefixes(dir, n) <= SlashPrefixes(dir, m)
    decreases m - n
  {
    if n < m {
      SlashPrefixesGrow(dir, n, m - 1);
    }
  }

  /** No target's mkdir fails (with an error other than EEXIST). */
  predicate NoFailure(targets: seq<string>, failing: set<string>)
  {
    forall k :: 0 <= k < |targets| ==> targets[k] !in failing
  }

  /** The mkdir calls made on `targets` in order, up to and including the
      first that fails. */
  function UpToFailure(targets: seq<string>, failing: set<string>): seq<string>
  {
    if targets == [] then []
    else if targets[0] in failing then [targets[0]]
    else [targets[0]] + UpToFailure(targets[1..], failing)
  }

  /** The calls are a prefix of the targets; all of them when none fails,
      otherwise through the first failure and no further. */
  lemma {:induction false} UpToFailureMeaning(targets: seq<string>, failing: set<string>)
    ensures UpToFailure(targets, failing) <= targets
    ensures NoFailure(targets, failing) ==> UpToFailure(targets, failing) == targets
    ensures !NoFailure(targets, failing) ==>
      var calls := UpToFailure(targets, failing);
      && calls != [] && calls[|calls| - 1] in failing
      && NoFailure(calls[..|calls| - 1], failing)
  {
    if targets == [] {
    } else if targets[0] in failing {
      assert UpToFailure(targets, failing) == [targets[0]];
      assert !NoFailure(targets, failing);
      assert [targets[0]][..0] == [];
    } else {
      var tail := targets[1..];
      UpToFailureMeaning(tail, failing);
      NoFailureCons(targets, failing);
      var rest := UpToFailure(tail, failing);
      var calls := UpToFailure(targets, failing);
      assert calls == [targets[0]] + rest;
      if !NoFailure(targets, failing) {
        assert calls[..|calls| - 1] == [targets[0]] + rest[..|rest| - 1];
        NoFailureCons([targets[0]] + rest[..|rest| - 1], failing);
      }
    }
  }

  lemma NoFailureCons(targets: seq<string>, failing: set<string>)
    requires targets != []
    ensures NoFailure(targets, failing) <==> targets[0] !in failing && NoFailure(targets[1..], failing)
  {
    if targets[0] !in failing && NoFailure(targets[1..], failing) {
      forall k | 0 <= k < |targets|
        ensures targets[k] !in failing
      {
        if k > 0 {
          assert targets[k] == targets[1..][k - 1];
        }
      }
    }
  }

  lemma {:induction false} UpToFailureAppend(xs: seq<string>, ys: seq<string>, failing: set<string>)
    ensures !NoFailure(xs, failing) ==> UpToFailure(xs + ys, failing) == UpToFailure(xs, failing)
    ensures NoFailure(xs, failing) ==> UpToFailure(xs + ys, failing) == xs + UpToFailure(ys, failing)
    ensures NoFailure(xs + ys, failing) <==> NoFailure(xs, failing) && NoFailure(ys, failing)
  {
    if xs != [] {
      assert (xs + ys)[0] == xs[0] && (xs + ys)[1..] == xs[1..] + ys;
      UpToFailureAppend(xs[1..], ys, failing);
      assert NoFailure(xs, failing) <==> xs[0] !in failing && NoFailure(xs[1..], failing);
      assert NoFailure(xs + ys, failing) <==> xs[0] !in failing && NoFailure(xs[1..] + ys, failing);
    } else {
      assert xs + ys == ys;
    }
  }

  /** MkDirAll: ENAMETOOLONG (-1, no mkdir) when the path and its
      terminator exceed PATH_MAX; 0 at once when the directory already
      exists; otherwise mkdir on each target in order, stopping with -1
      at the first that fails with an error other than EEXIST. The
      returned `calls` are the mkdir calls made; `alreadyThere` is what
      stat reports, and `failing` the paths whose mkdir fails with an
      error other than EEXIST. */
  method MkDirAll(dirn: string, alreadyThere: bool, failing: set<string>) returns (r: int, calls: seq<string>)
    requires Text.NUL !in dirn
    ensures r == 0 || r == -1
    ensures |dirn| >= PATH_MAX ==> r == -1 && calls == []
    ensures |dirn| < PATH_MAX && alreadyThere ==> r == 0 && calls == []
    ensures |dirn| < PATH_MAX && !alreadyThere ==>
      && calls == UpToFailure(MkdirTargets(dirn), failing)
      && (r == 0 <==> NoFailure(MkdirTargets(dirn), failing))
  {
    if |dirn| >= PATH_MAX {
      return -1, [];
    }
    var dir := CopyPath(dirn);
    if alreadyThere {
      return 0, [];
    }
    r, calls := MakeParents(dirn, dir, failing);
    UpToFailureAppend(SlashPrefixes(dirn, |dirn|), [dirn], failing);
    if r != 0 {
      return -1, calls;
    }
    assert dir[..] == dirn + [Text.NUL] + dir[|dirn| + 1..];
    Text.CStringOfTerminated(dirn, dir[|dirn| + 1..]);
    var path := Text.CString(dir[..]);
    assert UpToFailure([path], failing) == [path] by {
      assert [path][1..] == [];
    }
    NoFailureCons([path], failing);
    calls := calls + [path];
    if path in failing {
      return -1, calls;
    }
    return 0, calls;
  }

  /** strlcpy into a fresh PATH_MAX buffer, for a path that fits. */
  method CopyPath(dirn: string) returns (dir: array<char>)
    requires |dirn| < PATH_MAX
    ensures fresh(dir) && dir.Length == PATH_MAX
    ensures dir[..|dirn| + 1] == dirn + [Text.NUL]
  {
    dir := new char[PATH_MAX];
    var k := 0;
    while k < |dirn|
      invariant k <= |dirn|
      invariant forall j :: 0 <= j < k ==> dir[j] == dirn[j]
    {
      dir[k] := dirn[k];
      k := k + 1;
    }
    dir[|dirn|] := Text.NUL;
  }

  /** MkDirAll's loop: mkdir on each parent, by cutting the buffer at
      each '/' past the first character and restoring it; stops with -1
      at the first failure. */
  method MakeParents(dirn: string, dir: array<char>, failing: set<string>) returns (r: int, calls: seq<string>)
    requires |dirn| < dir.Length && dir[..|dirn| + 1] == dirn + [Text.NUL]
    requires Text.NUL !in dirn
    modifies dir
    ensures r == 0 || r == -1
    ensures calls == UpToFailure(SlashPrefixes(dirn, |dirn|), failing)
    ensures r == 0 <==> NoFailure(SlashPrefixes(dirn, |dirn|), failing)
    ensures r == 0 ==> calls == SlashPrefixes(dirn, |dirn|)
    ensures r == 0 ==> dir[..|dirn| + 1] == dirn + [Text.NUL]
  {
    calls := [];
    var slash := 0;
    while dir[slash] != Text.NUL
      decreases |dirn| - slash
      invariant slash <= |dirn|
      invariant dir[..|dirn| + 1] == dirn + [Text.NUL]
      invariant calls == SlashPrefixes(dirn, slash)
      invariant NoFailure(calls, failing)
    {
      assert dir[slash] == (dirn + [Text.NUL])[slash];
      if slash != 0 && dir[slash] == '/' {
        var path := CutAt(dirn, dir, slash);
        if path in failing {
          FailureStops(dirn, slash, failing);
          return -1, calls + [path];
        }
        calls := calls + [path];
        dir[slash] := '/';
        assert dir[..|dirn| + 1] == dirn + [Text.NUL];
      }
      slash := slash + 1;
    }
    UpToFailureMeaning(calls, failing);
    r := 0;
  }

  /** A failure at the parent ending before index `slash` ends the calls
      there. */
  lemma FailureStops(dirn: string, slash: nat, failing: set<string>)
    requires 0 < slash < |dirn| && dirn[slash] == '/'
    requires NoFailure(SlashPrefixes(dirn, slash), failing) && dirn[..slash] in failing
    ensures UpToFailure(SlashPrefixes(dirn, |dirn|), failing) == SlashPrefixes(dirn, slash) + [dirn[..slash]]
    ensures !NoFailure(SlashPrefixes(dirn, |dirn|), failing)
  {
    var xs := SlashPrefixes(dirn, slash + 1);
    assert xs == SlashPrefixes(dirn, slash) + [dirn[..slash]];
    SlashPrefixesGrow(dirn, slash + 1, |dirn|);
    var all := SlashPrefixes(dirn, |dirn|);
    assert all == xs + all[|xs|..];
    UpToFailureAppend(SlashPrefixes(dirn, slash), [dirn[..slash]], failing);
    assert !NoFailure(xs, failing) by {
      assert xs[|xs| - 1] == dirn[..slash];
    }
    UpToFailureAppend(xs, all[|xs|..], failing);
  }

  /** Writes a terminator over the character at `slash`; the buffer then
      holds the parent path dirn[..slash]. */
  method CutAt(dirn: string, dir: array<char>, slash: nat) returns (path: string)
    requires slash < |dirn| < dir.Length && dir[..|dirn| + 1] == dirn + [Text.NUL]
    requires Text.NUL !in dirn
    modifies dir
    ensures dir[..] == old(dir[..])[slash := Text.NUL]
    ensures path == Text.CString(dir[..]) && path == dirn[..slash]
  {
    dir[slash] := Text.NUL;
    assert dir[..] == dirn[..slash] + [Text.NUL] + dir[slash + 1..];
    Text.CStringOfTerminated(dirn[..slash], dir[slash + 1..]);
    path := Text.CString(dir[..]);
  }

  // ---------------------------------------------------------------------
  // The -w watchdog timeout
  // ---------------------------------------------------------------------

  /** isspace in the C locale. */
  predicate IsSpace(c: char)
  {
    c == ' ' || c == '\t' || c == '\n' || c == '\r' || c == '\U{0b}' || c == '\U{0c}'
  }

  /** The value of an alphanumeric digit; 36 for anything else, which no
      base accepts. */
  function DigitValue(c: char): (d: nat)
    ensures d <= 36
  {
    if '0' <= c <= '9' then c as nat - '0' as nat
    else if 'a' <= c <= 'z' then c as nat - 'a' as nat + 10
    else if 'A' <= c <= 'Z' then c as nat - 'A' as nat + 10
    else 36
  }

  /** Index of the first whitespace-free character at or after i. */
  function SkipSpace(s: string, i: nat): (j: nat)
    requires i <= |s|
    ensures i <= j <= |s|
    decreases |s| - i
  {
    if i < |s| && IsSpace(s[i]) then SkipSpace(s, i + 1) else i
  }

  /** Length of the run of digits of `base` starting at i. */
  function DigitRun(s: string, i: nat, base: nat): (n: nat)
    requires i <= |s|
    ensures i + n <= |s|
    decreases |s| - i
  {
    if i < |s| && DigitValue(s[i]) < base then 1 + DigitRun(s, i + 1, base) else 0
  }

  /** The value of a digit string in `base`, most significant first. */
  function DigitsValue(ds: string, base: nat): nat
  {
    if ds == [] then 0 else DigitsValue(ds[..|ds| - 1], base) * base + DigitValue(ds[|ds| - 1])
  }

  /** strtol(s, &end, 0): leading whitespace, an optional sign, then a
      hexadecimal ("0x"), octal (leading "0") or decimal number. Returns
      the value, clamped to the range of `long`, and the index `end`
      where parsing stopped (0 when there were no digits). */
  function Strtol(s: string): (r: (int, nat))
    ensures LONG_MIN <= r.0 <= LONG_MAX && r.1 <= |s|
  {
    var i := SkipSpace(s, 0);
    var negative := i < |s| && s[i] == '-';
    var j := if i < |s| && (s[i] == '-' || s[i] == '+') then i + 1 else i;
    var hex := j + 2 < |s| && s[j] == '0' && (s[j + 1] == 'x' || s[j + 1] == 'X') && DigitValue(s[j + 2]) < 16;
    var base := if hex then 16 else if j < |s| && s[j] == '0' then 8 else 10;
    var start := if hex then j + 2 else j;
    var n := DigitRun(s, start, base);
    if n == 0 then (0, 0)
    else
      var magnitude := DigitsValue(s[start..start + n], base);
      var value: int := if negative then -(magnitude as int) else magnitude;
      (if value > LONG_MAX then LONG_MAX else if value < LONG_MIN then LONG_MIN else value, start + n)
  }

  /** The -w argument: accepted only when it is non-empty, strtol reads
      all of it, and the value lies in [0, INT_MAX]. */
  function ParseTimeout(arg: string): (r: Option<int>)
    ensures r.Some? ==> 0 <= r.value <= INT32_MAX
    ensures r.Some? ==> arg != [] && Strtol(arg) == (r.value, |arg|)
    ensures arg == [] ==> r.None?
  {
    if arg == [] then None
    else
      var (value, end) := Strtol(arg);
      if end != |arg| || value < 0 || value > INT32_MAX then None else Some(value)
  }

  /** printf("%d") of a non-negative value. */
  function Decimal(v: nat): (s: string)
    ensures s != [] && forall k :: 0 <= k < |s| ==> '0' <= s[k] <= '9'
    ensures v > 0 ==> s[0] != '0'
  {
    if v < 10 then [('0' as nat + v) as char]
    else Decimal(v / 10) + [('0' as nat + v % 10) as char]
  }

  lemma {:induction false} DecimalValue(v: nat)
    ensures DigitsValue(Decimal(v), 10) == v
  {
    if v >= 10 {
      DecimalValue(v / 10);
      var s := Decimal(v);
      assert s[..|s| - 1] == Decimal(v / 10);
    }
  }

  lemma {:induction false} DigitRunAll(s: string, i: nat, base: nat)
    requires i <= |s|
    requires forall k :: i <= k < |s| ==> DigitValue(s[k]) < base
    ensures DigitRun(s, i, base) == |s| - i
    decreases |s| - i
  {
    if i < |s| {
      DigitRunAll(s, i + 1, base);
    }
  }

  /** The watchdog timeout is written back with "%d"; reading that text
      as -w gives the value back when it is at most INT_MAX, and is
      refused otherwise. */
  lemma ParseTimeoutDecimal(v: nat)
    ensures ParseTimeout(Decimal(v)) == if v <= INT32_MAX then Some(v) else None
  {
    if v == 0 {
      assert Decimal(v) == "0";
      ParseTimeoutZero();
    } else {
      var s := Decimal(v);
      DecimalValue(v);
      StrtolDecimal(s);
    }
  }

  lemma ParseTimeoutZero()
    ensures ParseTimeout("0") == Some(0)
  {
    var s := "0";
    assert DigitRun(s, 0, 8) == 1;
    assert s[0..1] == "0";
    assert DigitsValue("0", 8) == 0 by {
      assert "0"[..0] == [];
    }
  }

  /** Decimal digits with no leading zero are read whole, in base 10. */
  lemma StrtolDecimal(s: string)
    requires s != [] && s[0] != '0'
    requires forall k :: 0 <= k < |s| ==> '0' <= s[k] <= '9'
    ensures Strtol(s).1 == |s|
    ensures Strtol(s).0 == if DigitsValue(s, 10) > LONG_MAX then LONG_MAX else DigitsValue(s, 10)
  {
    assert SkipSpace(s, 0) == 0;
    DigitRunAll(s, 0, 10);
    assert s[0..|s|] == s;
  }

  /** A timeout followed by anything that is not a digit is refused. */
  lemma ParseTimeoutTrailing(v: nat, c: char)
    requires DigitValue(c) >= 10
    ensures ParseTimeout(Decimal(v) + [c]) == None
  {
    var d := Decimal(v);
    var s := d + [c];
    assert SkipSpace(s, 0) == 0;
    var base := if s[0] == '0' then 8 else 10;
    DigitRunAll(d, 0, base);
    DigitRunPrefix(d, c, 0, base);
  }

  lemma {:induction false} DigitRunPrefix(d: string, c: char, i: nat, base: nat)
    requires i <= |d| && base <= 10 && DigitValue(c) >= 10
    ensures DigitRun(d + [c], i, base) == DigitRun(d, i, base)
    decreases |d| - i
  {
    if i < |d| {
      DigitRunPrefix(d, c, i + 1, base);
    }
  }

  /** A negative timeout is refused. */
  lemma ParseTimeoutNegative(v: nat)
    requires v > 0
    ensures ParseTimeout("-" + Decimal(v)) == None
  {
    var d := Decimal(v);
    var s := "-" + d;
    assert s[0] == '-' && s[1] == d[0];
    StrtolNegative(s);
  }

  /** A minus sign before a digit other than 0 gives a negative value. */
  lemma StrtolNegative(s: string)
    requires |s| >= 2 && s[0] == '-' && '1' <= s[1] <= '9'
    ensures Strtol(s).0 < 0
  {
    assert SkipSpace(s, 0) == 0;
    var n := DigitRun(s, 1, 10);
    assert n >= 1;
    assert s[1..1 + n][0] == s[1];
    DigitsValueLeading(s[1..1 + n], 10);
  }

  lemma {:induction false} DigitsValueLeading(ds: string, base: nat)
    requires ds != [] && 0 < DigitValue(ds[0]) && base >= 1
    ensures DigitsValue(ds, base) > 0
    decreases |ds|
  {
    if |ds| > 1 {
      var prefix := ds[..|ds| - 1];
      assert prefix[0] == ds[0];
      DigitsValueLeading(prefix, base);
      assert DigitsValue(prefix, base) * base >= DigitsValue(prefix, base);
    }
  }

  /** The base is chosen by the prefix and leading whitespace is skipped:
      " 0x10" and "010" are accepted as 16 and 8. */
  lemma ParseTimeoutHex()
    ensures ParseTimeout(" 0x10") == Some(16)
  {
    var s := " 0x10";
    assert SkipSpace(s, 0) == 1;
    assert DigitRun(s, 3, 16) == 2;
    assert s[3..5] == "10";
    assert DigitsValue("10", 16) == 16 by {
      assert "10"[..1] == "1";
    }
  }

  /** A leading 0 selects octal. */
  lemma ParseTimeoutOctal()
    ensures ParseTimeout("010") == Some(8)
  {
    var s := "010";
    assert SkipSpace(s, 0) == 0;
    assert DigitRun(s, 0, 8) == 3;
    assert s[0..3] == s;
    assert DigitsValue(s, 8) == 8 by {
      assert s[..2] == "01";
      assert "01"[..1] == "0";
    }
  }

  /** "0x" without a hexadecimal digit is read as 0 followed by "x",
      which is refused. */
  lemma ParseTimeoutBareHexPrefix()
    ensures ParseTimeout("0x") == None
  {
    var s := "0x";
    assert SkipSpace(s, 0) == 0;
    assert DigitRun(s, 0, 8) == 1;
  }
}
