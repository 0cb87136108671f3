/**
 * The pure prefix of `getOccurrences` shared by pkg/executor/execute.go and
 * main.go: strip one leading "https://", split on "/", insist on at least three
 * segments and take the second one as the project.
 */
module ImageRef {
  import opened Results

  const HttpsPrefix: string := "https://"

  /**
   * What `getOccurrences` sends to the occurrence service: the URL path under the
   * service host and the `filter` query parameter.
   */
  datatype OccurrencesRequest = OccurrencesRequest(path: string, filter: string)

  /** The path of the occurrence listing of a project. */
  function OccurrencesPath(project: string): string {
    "v1alpha1/projects/" + project + "/occurrences"
  }

  /** Go's `strings.TrimPrefix`: drop `prefix` once when `s` starts with it. */
  function TrimPrefix(s: string, prefix: string): (r: string)
    ensures prefix <= s ==> s == prefix + r
    ensures !(prefix <= s) ==> r == s
  {
    if prefix <= s then s[|prefix|..] else s
  }

  /** The number of `/` characters in `s`. */
  function SlashCount(s: string): nat {
    multiset(s)['/']
  }

  /** Go's `strings.Join(parts, "/")`. */
  function JoinSlash(parts: seq<string>): string {
    if parts == [] then ""
    else if |parts| == 1 then parts[0]
    else parts[0] + "/" + JoinSlash(parts[1..])
  }

  /**
   * Go's `strings.Split(s, "/")`: the pieces between the separators, one more
   * piece than there are separators (so the empty string gives one empty piece).
   */
  function SplitSlash(s: string): (parts: seq<string>)
    ensures |parts| >= 1
  {
    if s == [] then [""]
    else
      var rest := SplitSlash(s[1..]);
      assert s == [s[0]] + s[1..];
      if s[0] == '/' then [""] + rest
      else [[s[0]] + rest[0]] + rest[1..]
  }

  /** There is one more piece than there are separators. */
  lemma {:induction false} SplitSlashLength(s: string)
    ensures |SplitSlash(s)| == SlashCount(s) + 1
  {
    if s != [] {
      SplitSlashLength(s[1..]);
      assert s == [s[0]] + s[1..];
      assert multiset(s) == multiset([s[0]]) + multiset(s[1..]);
    }
  }

  /** No piece contains the separator. */
  lemma {:induction false} SplitSlashPieces(s: string)
    ensures forall k :: 0 <= k < |SplitSlash(s)| ==> '/' !in SplitSlash(s)[k]
  {
    if s != [] {
      var rest := SplitSlash(s[1..]);
      SplitSlashPieces(s[1..]);
      if s[0] != '/' {
        var parts := SplitSlash(s);
        assert parts[0] == [s[0]] + rest[0];
        assert forall k :: 1 <= k < |parts| ==> parts[k] == rest[k];
      }
    }
  }

  /** Joining a piece in front of at least one other piece puts a separator between them. */
  lemma JoinCons(x: string, parts: seq<string>)
    requires parts != []
    ensures JoinSlash([x] + parts) == x + "/" + JoinSlash(parts)
  {
    assert ([x] + parts)[1..] == parts;
  }

  /** Gluing a character onto the first of several pieces puts it in front of the join. */
  lemma JoinGlueFirst(c: char, r0: string, more: seq<string>)
    requires more != []
    ensures JoinSlash([[c] + r0] + more) == [c] + JoinSlash([r0] + more)
  {
    var j := JoinSlash(more);
    JoinCons(r0, more);
    JoinCons([c] + r0, more);
    assert ([c] + r0) + ("/" + j) == [c] + (r0 + ("/" + j));
  }

  /** How `SplitSlash` treats the first character. */
  lemma SplitSlashCons(c: char, tail: string)
    ensures SplitSlash([c] + tail) ==
      if c == '/' then [""] + SplitSlash(tail)
      else [[c] + SplitSlash(tail)[0]] + SplitSlash(tail)[1..]
  {
    assert ([c] + tail)[1..] == tail;
  }

  /** Joining the pieces gives back the string. */
  lemma {:induction false} JoinSplit(s: string)
    ensures JoinSlash(SplitSlash(s)) == s
  {
    if s != [] {
      var c, tail := s[0], s[1..];
      assert s == [c] + tail;
      var rest := SplitSlash(tail);
      JoinSplit(tail);
      SplitSlashCons(c, tail);
      if c == '/' {
        JoinCons("", rest);
      } else if |rest| == 1 {
        assert [[c] + rest[0]] + rest[1..] == [[c] + rest[0]];
      } else {
        assert rest == [rest[0]] + rest[1..];
        JoinGlueFirst(c, rest[0], rest[1..]);
      }
    }
  }

  /** A separator-free prefix is split off as the first piece. */
  lemma {:induction false} SplitAfterSegment(a: string, b: string)
    requires '/' !in a
    ensures SplitSlash(a + "/" + b) == [a] + SplitSlash(b)
  {
    if a != [] {
      assert (a + "/" + b)[1..] == a[1..] + "/" + b;
      SplitAfterSegment(a[1..], b);
      assert [a[0]] + a[1..] == a;
    } else {
      assert (a + "/" + b)[1..] == b;
    }
  }

  /** A separator-free string is a single piece. */
  lemma SplitSingleSegment(a: string)
    requires '/' !in a
    ensures SplitSlash(a) == [a]
  {
    assert SlashCount(a) == 0;
    SplitSlashLength(a);
    JoinSplit(a);
  }

  /** Splitting undoes joining separator-free pieces: `Split` and `Join` are inverse. */
  lemma {:induction false} SplitJoin(parts: seq<string>)
    requires |parts| >= 1
    requires forall k :: 0 <= k < |parts| ==> '/' !in parts[k]
    ensures SplitSlash(JoinSlash(parts)) == parts
  {
    if |parts| == 1 {
      SplitSingleSegment(parts[0]);
    } else {
      SplitJoin(parts[1..]);
      SplitAfterSegment(parts[0], JoinSlash(parts[1..]));
    }
  }

  /** The error text `getOccurrences` returns for a reference with fewer than three segments. */
  function MalformedMessage(image: string): string {
    "Malformed image " + image + " should be gcr.io/<project>/<name>"
  }

  /**
   * The project of an image reference: segment 1 of the reference with one
   * "https://" removed, when it has at least three segments; the malformed error
   * otherwise.
   */
  function ImageProject(image: string): (r: Result<string>)
    ensures r.Failure? <==> SlashCount(TrimPrefix(image, HttpsPrefix)) < 2
    ensures r.Failure? ==> r.error == MalformedMessage(image)
    ensures r.Success? ==> '/' !in r.value
  {
    SplitSlashPieces(TrimPrefix(image, HttpsPrefix));
    SplitSlashLength(TrimPrefix(image, HttpsPrefix));
    var sp := SplitSlash(TrimPrefix(image, HttpsPrefix));
    if |sp| < 3 then Failure(MalformedMessage(image)) else Success(sp[1])
  }

  /**
   * The request `getOccurrences` sends for an image with a given filter, or the
   * malformed-image error; the two drafts differ only in the filter they pass.
   */
  function BuildRequest(image: string, filter: string): (r: Result<OccurrencesRequest>)
    ensures r.Failure? <==> SlashCount(TrimPrefix(image, HttpsPrefix)) < 2
    ensures r.Failure? ==> r.error == MalformedMessage(image)
    ensures r.Success? ==> r.value.filter == filter
  {
    match ImageProject(image)
    case Failure(e) => Failure(e)
    case Success(project) => Success(OccurrencesRequest(OccurrencesPath(project), filter))
  }


  /**
   * When the reference, after removing "https://", reads `registry/project/rest` with
   * no separator in the first two, the project is exactly the middle segment
   * (possibly empty, as in `a//b`).
   */
  lemma ProjectIsSecondSegment(image: string, registry: string, project: string, rest: string)
    requires TrimPrefix(image, HttpsPrefix) == registry + "/" + project + "/" + rest
    requires '/' !in registry && '/' !in project
    ensures ImageProject(image) == Success(project)
  {
    var tail := project + "/" + rest;
    assert registry + "/" + project + "/" + rest == registry + "/" + tail;
    SplitAfterSegment(registry, tail);
    SplitAfterSegment(project, rest);
    var sp := SplitSlash(TrimPrefix(image, HttpsPrefix));
    assert sp == [registry] + ([project] + SplitSlash(rest));
    assert |sp| >= 3 && sp[1] == project;
  }
}
