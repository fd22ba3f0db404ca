/**
  * The parts of Go's `strings` and `path` packages that the sidecar relies on:
  * `strings.Split` with a one-character separator, its inverse `strings.Join`,
  * `strings.Count`, `strings.TrimSpace` and `path.Split`.
  */
module GoStrings {

  /** `strings.Count(s, string(c))`: occurrences of `c` in `s`. */
  function Count(s: string, c: char): nat
  {
    if s == [] then 0 else (if s[0] == c then 1 else 0) + Count(s[1..], c)
  }

  lemma {:induction false} CountZero(s: string, c: char)
    ensures Count(s, c) == 0 <==> c !in s
  {
    if s != [] {
      CountZero(s[1..], c);
      assert s == [s[0]] + s[1..];
    }
  }

  /**
    * `strings.Split(s, string(sep))`: the pieces of `s` between occurrences of
    * `sep`. The empty string gives one empty piece, and two separators in a row
    * give an empty piece between them.
    */
  function Split(s: string, sep: char): (parts: seq<string>)
    ensures |parts| == Count(s, sep) + 1
    ensures forall i :: 0 <= i < |parts| ==> sep !in parts[i]
  {
    if s == [] then [""]
    else
      var rest := Split(s[1..], sep);
      if s[0] == sep then [""] + rest
      else [[s[0]] + rest[0]] + rest[1..]
  }

  /** `strings.Join(parts, string(sep))`. */
  function Join(parts: seq<string>, sep: char): string
  {
    if parts == [] then ""
    else if |parts| == 1 then parts[0]
    else parts[0] + [sep] + Join(parts[1..], sep)
  }

  /** Joining the pieces again gives back the string that was split. */
  lemma {:induction false} JoinSplit(s: string, sep: char)
    ensures Join(Split(s, sep), sep) == s
  {
    if s != [] {
      var rest := Split(s[1..], sep);
      JoinSplit(s[1..], sep);
      if s[0] == sep {
        assert Split(s, sep) == [""] + rest;
      } else {
        var parts := Split(s, sep);
        assert parts[0] == [s[0]] + rest[0];
        if |rest| == 1 {
          assert Join(parts, sep) == [s[0]] + rest[0];
        } else {
          assert parts[1..] == rest[1..];
          assert Join(rest, sep) == rest[0] + [sep] + Join(rest[1..], sep);
        }
      }
    }
  }

  /** A string without the separator is one piece. */
  lemma {:induction false} SplitWithoutSep(s: string, sep: char)
    requires sep !in s
    ensures Split(s, sep) == [s]
  {
    if s != [] {
      assert sep !in s[1..] by { assert forall j :: 0 <= j < |s[1..]| ==> s[1..][j] == s[j + 1]; }
      SplitWithoutSep(s[1..], sep);
      assert s[0] != sep;
      assert [s[0]] + s[1..] == s;
    }
  }

  /** Splitting distributes over a separator: the pieces of `x` followed by those of `y`. */
  lemma {:induction false} SplitAtSep(x: string, y: string, sep: char)
    ensures Split(x + [sep] + y, sep) == Split(x, sep) + Split(y, sep)
  {
    if x == [] {
      assert x + [sep] + y == [sep] + y;
      assert ([sep] + y)[1..] == y;
    } else {
      var s := x + [sep] + y;
      assert s[0] == x[0] && s[1..] == x[1..] + [sep] + y;
      SplitAtSep(x[1..], y, sep);
    }
  }

  /** Two separators in a row produce an empty piece between their neighbours. */
  lemma SplitDoubleSep(x: string, y: string, sep: char)
    ensures Split(x + [sep, sep] + y, sep) == Split(x, sep) + [""] + Split(y, sep)
  {
    assert x + [sep, sep] + y == x + [sep] + ([] + [sep] + y);
    SplitAtSep(x, [] + [sep] + y, sep);
    SplitAtSep([], y, sep);
  }

  /** Splitting a join of separator-free pieces gives the pieces back. */
  lemma {:induction false} SplitJoin(parts: seq<string>, sep: char)
    requires |parts| >= 1
    requires forall i :: 0 <= i < |parts| ==> sep !in parts[i]
    ensures Split(Join(parts, sep), sep) == parts
  {
    if |parts| == 1 {
      SplitWithoutSep(parts[0], sep);
    } else {
      SplitJoin(parts[1..], sep);
      SplitAtSep(parts[0], Join(parts[1..], sep), sep);
      SplitWithoutSep(parts[0], sep);
    }
  }

  /** `unicode.IsSpace`, over the code points Go counts as white space. */
  predicate IsSpace(c: char)
  {
    c == '\t' || c == '\n' || c == '\U{B}' || c == '\U{C}' || c == '\r' || c == ' ' ||
    c == '\U{85}' || c == '\U{A0}' || c == '\U{1680}' ||
    ('\U{2000}' <= c <= '\U{200A}') ||
    c == '\U{2028}' || c == '\U{2029}' || c == '\U{202F}' || c == '\U{205F}' || c == '\U{3000}'
  }

  predicate AllSpace(s: string)
  {
    forall i :: 0 <= i < |s| ==> IsSpace(s[i])
  }

  /** Neither end of `s` is white space. */
  predicate IsTrimmed(s: string)
  {
    s == [] || (!IsSpace(s[0]) && !IsSpace(s[|s| - 1]))
  }

  /** Length of the white-space run that starts `s`. */
  function Lead(s: string): (n: nat)
    ensures n <= |s| && AllSpace(s[..n])
    ensures n < |s| ==> !IsSpace(s[n])
  {
    if s == [] || !IsSpace(s[0]) then 0 else 1 + Lead(s[1..])
  }

  /** Length of the white-space run that ends `s`. */
  function Trail(s: string): (n: nat)
    ensures n <= |s| && AllSpace(s[|s| - n..])
    ensures n < |s| ==> !IsSpace(s[|s| - n - 1])
  {
    if s == [] || !IsSpace(s[|s| - 1]) then 0
    else
      var p := s[..|s| - 1];
      var m := Trail(p);
      assert s[|s| - (m + 1)..] == p[|p| - m..] + [s[|s| - 1]];
      AllSpaceSnoc(p[|p| - m..], s[|s| - 1]);
      m + 1
  }

  lemma AllSpaceSnoc(x: string, c: char)
    requires AllSpace(x) && IsSpace(c)
    ensures AllSpace(x + [c])
  {
    assert forall i :: 0 <= i < |x| ==> (x + [c])[i] == x[i];
  }

  /**
    * `strings.TrimSpace`: `s` with its leading and trailing white space cut
    * off. What is cut off is white space only, and what remains starts and ends
    * with a character that is not.
    */
  function TrimSpace(s: string): (t: string)
    ensures IsTrimmed(t)
    ensures Lead(s) + |t| <= |s| && t == s[Lead(s)..Lead(s) + |t|]
    ensures AllSpace(s[..Lead(s)]) && AllSpace(s[Lead(s) + |t|..])
  {
    var n := Lead(s);
    var u := s[n..];
    var m := Trail(u);
    var t := u[..|u| - m];
    assert t != [] ==> t[0] == u[0] && t[|t| - 1] == u[|u| - m - 1];
    assert s[n + |t|..] == u[|u| - m..];
    assert t == s[n..n + |t|];
    t
  }

  /** Trimming twice is trimming once. */
  lemma TrimSpaceIdempotent(s: string)
    ensures TrimSpace(TrimSpace(s)) == TrimSpace(s)
  {
    var t := TrimSpace(s);
    assert Lead(t) == 0;
    assert Trail(t[Lead(t)..]) == 0;
  }

  /** `t` is `s` with nothing but white space cut from either end. */
  predicate CutFrom(t: string, s: string)
  {
    exists i :: 0 <= i <= |s| - |t| && s[i..i + |t|] == t && AllSpace(s[..i]) && AllSpace(s[i + |t|..])
  }

  /** What `TrimSpace` removes is white space at the ends, and nothing else. */
  lemma TrimSpaceCutsSpace(s: string)
    ensures CutFrom(TrimSpace(s), s)
  {
    var i := Lead(s);
    assert s[i..i + |TrimSpace(s)|] == TrimSpace(s);
  }

  /** Index of the last '/' in `p`, or -1 (`strings.LastIndex(p, "/")`). */
  function LastSlash(p: string): (i: int)
    ensures -1 <= i < |p|
    ensures i >= 0 ==> p[i] == '/'
    ensures forall j :: i < j < |p| ==> p[j] != '/'
  {
    if p == [] then -1
    else if p[|p| - 1] == '/' then |p| - 1
    else LastSlash(p[..|p| - 1])
  }

  /**
    * `path.Split`: cuts `p` just after its last '/', giving a directory part
    * that is empty or ends in '/', and a file part with no '/'; the two
    * concatenated are `p`.
    */
  function PathSplit(p: string): (r: (string, string))
    ensures r.0 + r.1 == p
    ensures '/' !in r.1
    ensures r.0 == [] || r.0[|r.0| - 1] == '/'
  {
    var i := LastSlash(p);
    (p[..i + 1], p[i + 1..])
  }
}
