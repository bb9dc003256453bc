/**
 * `java.nio.file.Paths.get(String)` on the Unix file-system provider, and the
 * two things the uploader asks of the resulting `Path`: `getFileName()` and
 * `toString()`. A path string is normalised by collapsing runs of `/` and
 * dropping trailing `/`; a NUL character makes it invalid.
 */
module UnixPaths {
  import opened Wrappers

  const Separator: char := '/'
  const Nul: char := 0 as char

  /** A name element: not empty, no separator, no NUL. */
  predicate IsName(n: string) {
    |n| > 0 && Separator !in n && Nul !in n
  }

  /** A normalised path: a root flag and its name elements. */
  datatype Path = Path(absolute: bool, names: seq<string>)

  predicate Valid(p: Path) {
    forall i :: 0 <= i < |p.names| ==> IsName(p.names[i])
  }

  /** The name elements joined with single separators. */
  function Join(names: seq<string>): string
    decreases |names|
  {
    if names == [] then []
    else if |names| == 1 then names[0]
    else names[0] + [Separator] + Join(names[1..])
  }

  /** `Path.toString()`: the normalised path string. */
  function ToString(p: Path): string {
    (if p.absolute then [Separator] else []) + Join(p.names)
  }

  /**
   * Splits on `/`, dropping empty elements; `current` is the element read so far.
   */
  function SplitNames(s: string, current: string): seq<string>
    decreases |s|
  {
    if s == [] then (if current == [] then [] else [current])
    else if s[0] == Separator then (if current == [] then [] else [current]) + SplitNames(s[1..], [])
    else SplitNames(s[1..], current + [s[0]])
  }

  /**
   * The text between consecutive separators, empty pieces included: the
   * string cut at every `/`.
   */
  function SplitAll(s: string): (r: seq<string>)
    decreases |s|
    ensures |r| >= 1
  {
    if s == [] then [[]]
    else if s[0] == Separator then [[]] + SplitAll(s[1..])
    else
      var rest := SplitAll(s[1..]);
      [[s[0]] + rest[0]] + rest[1..]
  }

  /** The elements that are not empty, in order. */
  function NonEmpty(xs: seq<string>): seq<string>
    decreases |xs|
  {
    if xs == [] then [] else (if xs[0] == [] then [] else [xs[0]]) + NonEmpty(xs[1..])
  }

  datatype PathError = PathError(input: string, reason: string)

  /** `Paths.get(s)`: fails with `InvalidPathException` on a NUL character. */
  function Get(s: string): (r: Result<Path, PathError>)
    ensures r.Success? <==> Nul !in s
    ensures r.Success? ==> Valid(r.value)
    ensures r.Success? ==> (r.value.absolute <==> |s| > 0 && s[0] == Separator)
    ensures r.Success? ==> r.value.names == NonEmpty(SplitAll(s))
  {
    if Nul in s then Failure(PathError(s, "Nul character not allowed"))
    else
      SplitNamesValid(s, []);
      SplitNamesSegments(s, []);
      EmptyPrefixPiece(SplitAll(s));
      Success(Path(|s| > 0 && s[0] == Separator, SplitNames(s, [])))
  }

  /**
   * `Path.getFileName()`: the last name element; the empty path's file name is
   * the empty path; the root `/` has none (`null`).
   */
  function FileName(p: Path): (r: Option<string>)
    requires Valid(p)
    ensures r.None? <==> p.absolute && p.names == []
    ensures !p.absolute && p.names == [] ==> r == Some([])
    ensures r.Some? && r.value != [] ==> IsName(r.value)
    ensures r.Some? && p.names != [] ==> r.value == p.names[|p.names| - 1]
  {
    if p.names == [] then (if p.absolute then None else Some([]))
    else Some(p.names[|p.names| - 1])
  }

  // ----------------------------------------------------------- lemmas

  /**
   * The splitter yields the non-empty pieces between separators, the first
   * of them prefixed by the element already read.
   */
  lemma {:induction false} SplitNamesSegments(s: string, current: string)
    decreases |s|
    ensures SplitNames(s, current) == NonEmpty([current + SplitAll(s)[0]] + SplitAll(s)[1..])
  {
    if s == [] {
      assert current + [] == current;
    } else {
      var rest := SplitAll(s[1..]);
      if s[0] == Separator {
        SplitNamesSegments(s[1..], []);
        EmptyPrefixPiece(rest);
        assert current + SplitAll(s)[0] == current;
        var xs := [current] + rest;
        assert xs[0] == current && xs[1..] == rest;
      } else {
        SplitNamesSegments(s[1..], current + [s[0]]);
        assert current + SplitAll(s)[0] == current + [s[0]] + rest[0];
      }
    }
  }

  /** An empty element read so far leaves the pieces as they are. */
  lemma EmptyPrefixPiece(pieces: seq<string>)
    requires |pieces| >= 1
    ensures [[] + pieces[0]] + pieces[1..] == pieces
  {
    assert [] + pieces[0] == pieces[0];
  }

  /** Cutting at a separator: the pieces of each side, one after the other. */
  lemma {:induction false} SplitAllAtSeparator(a: string, b: string)
    decreases |a|
    ensures SplitAll(a + [Separator] + b) == SplitAll(a) + SplitAll(b)
  {
    if a == [] {
      assert a + [Separator] + b == [Separator] + b;
    } else {
      var t := a + [Separator] + b;
      assert t[0] == a[0] && t[1..] == a[1..] + [Separator] + b;
      SplitAllAtSeparator(a[1..], b);
      if a[0] != Separator {
        var ra := SplitAll(a[1..]);
        assert SplitAll(t[1..])[0] == ra[0];
        assert SplitAll(t[1..])[1..] == ra[1..] + SplitAll(b);
      }
    }
  }

  /** Text without a separator is a single piece. */
  lemma {:induction false} SplitAllOfName(n: string)
    requires Separator !in n
    decreases |n|
    ensures SplitAll(n) == [n]
  {
    if n != [] {
      SplitAllOfName(n[1..]);
      assert [n[0]] + n[1..] == n;
    }
  }

  lemma {:induction false} NonEmptyConcat(xs: seq<string>, ys: seq<string>)
    decreases |xs|
    ensures NonEmpty(xs + ys) == NonEmpty(xs) + NonEmpty(ys)
  {
    if xs != [] {
      assert (xs + ys)[0] == xs[0] && (xs + ys)[1..] == xs[1..] + ys;
      NonEmptyConcat(xs[1..], ys);
    } else {
      assert xs + ys == ys;
    }
  }

  /** A name written after a directory and a separator is the file name of the result. */
  lemma FileNameOfLastSegment(dir: string, n: string)
    requires Nul !in dir && IsName(n)
    ensures Get(dir + [Separator] + n).Success?
    ensures FileName(Get(dir + [Separator] + n).value) == Some(n)
  {
    var s := dir + [Separator] + n;
    assert Nul !in s by {
      assert forall i :: 0 <= i < |s| ==> s[i] == (if i < |dir| then dir[i] else if i == |dir| then Separator else n[i - |dir| - 1]);
    }
    SplitAllAtSeparator(dir, n);
    SplitAllOfName(n);
    NonEmptyConcat(SplitAll(dir), [n]);
    assert NonEmpty([n]) == [n] + NonEmpty([]);
  }

  lemma {:induction false} SplitNamesValid(s: string, current: string)
    requires Nul !in s && Separator !in current && Nul !in current
    decreases |s|
    ensures forall i :: 0 <= i < |SplitNames(s, current)| ==> IsName(SplitNames(s, current)[i])
  {
    if s == [] {
    } else if s[0] == Separator {
      SplitNamesValid(s[1..], []);
    } else {
      SplitNamesValid(s[1..], current + [s[0]]);
    }
  }

  /** Characters of a name are simply gathered into the current element. */
  lemma {:induction false} SplitNamesWord(w: string, rest: string, current: string)
    requires Separator !in w
    decreases |w|
    ensures SplitNames(w + rest, current) == SplitNames(rest, current + w)
  {
    if w == [] {
      assert w + rest == rest;
      assert current + w == current;
    } else {
      assert (w + rest)[0] == w[0];
      assert (w + rest)[1..] == w[1..] + rest;
      SplitNamesWord(w[1..], rest, current + [w[0]]);
      assert current + [w[0]] + w[1..] == current + w;
    }
  }

  lemma {:induction false} SplitJoin(names: seq<string>)
    requires forall i :: 0 <= i < |names| ==> IsName(names[i])
    decreases |names|
    ensures SplitNames(Join(names), []) == names
  {
    if names == [] {
    } else if |names| == 1 {
      SplitNamesWord(names[0], [], []);
      assert names[0] + [] == names[0];
      assert [] + names[0] == names[0];
    } else {
      var tail := [Separator] + Join(names[1..]);
      assert Join(names) == names[0] + tail;
      SplitNamesWord(names[0], tail, []);
      assert [] + names[0] == names[0];
      assert tail[1..] == Join(names[1..]);
      SplitJoin(names[1..]);
      assert names == [names[0]] + names[1..];
    }
  }

  lemma {:induction false} JoinFacts(names: seq<string>)
    requires forall i :: 0 <= i < |names| ==> IsName(names[i])
    decreases |names|
    ensures Nul !in Join(names)
    ensures names != [] ==> |Join(names)| > 0 && Join(names)[0] != Separator
  {
    if |names| > 1 {
      JoinFacts(names[1..]);
      assert names[0][0] != Separator;
    } else if |names| == 1 {
      assert names[0][0] != Separator;
    }
  }

  /** A character absent from the input is absent from every element split from it. */
  lemma {:induction false} SplitNamesAvoid(s: string, current: string, c: char)
    requires c !in s && c !in current
    decreases |s|
    ensures forall i :: 0 <= i < |SplitNames(s, current)| ==> c !in SplitNames(s, current)[i]
  {
    if s == [] {
    } else if s[0] == Separator {
      SplitNamesAvoid(s[1..], [], c);
    } else {
      SplitNamesAvoid(s[1..], current + [s[0]], c);
    }
  }

  /** The file name of a parsed path holds only characters of the path string. */
  lemma FileNameAvoids(s: string, c: char)
    requires Nul !in s && c !in s
    ensures FileName(Get(s).value).Some? ==> c !in FileName(Get(s).value).value
  {
    SplitNamesAvoid(s, [], c);
  }

  /** `toString` of a path reads back as the same path: normalisation is complete. */
  lemma GetToString(p: Path)
    requires Valid(p)
    ensures Get(ToString(p)) == Success(p)
  {
    var s := ToString(p);
    JoinFacts(p.names);
    SplitJoin(p.names);
    if p.absolute {
      assert s[0] == Separator && s[1..] == Join(p.names);
      assert Nul !in s;
      assert SplitNames(s, []) == [] + SplitNames(s[1..], []);
      assert SplitNames(s, []) == p.names;
      assert Get(s) == Success(Path(true, p.names));
    } else {
      assert s == Join(p.names);
    }
  }

  /** Normalising twice is normalising once. */
  lemma GetIdempotent(s: string)
    requires Nul !in s
    ensures Get(ToString(Get(s).value)) == Get(s)
  {
    GetToString(Get(s).value);
  }
}
