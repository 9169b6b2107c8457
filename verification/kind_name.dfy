/** The kind name carried by an export-metadata URL, as the source extracts it with
    the regular expression `/_kind_(.+)\.export_metadata$/` and the first capture group.

    JavaScript semantics of that expression, without flags: the match starting at the
    leftmost position wins; `.` matches any character except the four line terminators;
    `$` matches only at the end of the input. Since the group must be followed by the
    fixed suffix at the very end, the greedy group always ends exactly where the suffix
    begins, so a match is fixed by its start position alone. */
module KindName {
  import opened Wrappers
  import opened Text

  const Marker := "_kind_"
  const Suffix := ".export_metadata"

  /** The characters JavaScript's `.` does not match: LF, CR, LINE SEPARATOR, PARAGRAPH SEPARATOR. */
  predicate IsLineTerminator(c: char) {
    c == '\n' || c == '\r' || c == '\U{2028}' || c == '\U{2029}'
  }

  predicate NoLineTerminator(s: string) {
    forall i :: 0 <= i < |s| ==> !IsLineTerminator(s[i])
  }

  predicate MarkerAt(s: string, i: int) {
    0 <= i && i + |Marker| <= |s| && s[i..i + |Marker|] == Marker
  }

  predicate ContainsMarker(s: string) {
    exists i :: 0 <= i <= |s| - |Marker| && MarkerAt(s, i)
  }

  /** The expression matches `s` starting at position `i`. */
  predicate MatchAt(s: string, i: int) {
    && EndsWith(s, Suffix)
    && MarkerAt(s, i)
    && i + |Marker| < |s| - |Suffix|
    && NoLineTerminator(s[i + |Marker|..|s| - |Suffix|])
  }

  /** The text of capture group 1 for the match starting at `i`. */
  function Capture(s: string, i: int): string
    requires MatchAt(s, i)
  {
    s[i + |Marker|..|s| - |Suffix|]
  }

  /** The leftmost start position at or after `from` where the expression matches. */
  function FirstMatch(s: string, from: nat): (r: Option<nat>)
    ensures r.Some? ==> from <= r.value && MatchAt(s, r.value)
    ensures r.Some? ==> forall j :: from <= j < r.value ==> !MatchAt(s, j)
    ensures r.None? ==> forall j :: from <= j ==> !MatchAt(s, j)
    decreases |s| - from
  {
    if from + |Marker| >= |s| - |Suffix| then None
    else if MatchAt(s, from) then Some(from)
    else FirstMatch(s, from + 1)
  }

  /** `metadataUrl.match(/_kind_(.+)\.export_metadata$/)`, group 1; None stands for the
      `null` that `match` returns when nothing matches. */
  function KindOf(url: string): (r: Option<string>)
    ensures r.Some? ==> r.value != [] && NoLineTerminator(r.value)
                        && EndsWith(url, Marker + r.value + Suffix)
  {
    match FirstMatch(url, 0)
    case None => None
    case Some(i) =>
      var kind := Capture(url, i);
      assert url[i..] == Marker + kind + Suffix;
      Some(kind)
  }

  /** KindOf is the expression's semantics: no kind exactly when no position matches,
      otherwise the capture of the leftmost match. */
  lemma KindOfIsLeftmostMatch(url: string)
    ensures KindOf(url).None? <==> forall i :: 0 <= i ==> !MatchAt(url, i)
    ensures KindOf(url).Some? ==>
              exists i :: 0 <= i && MatchAt(url, i) && KindOf(url).value == Capture(url, i)
                          && forall j :: 0 <= j < i ==> !MatchAt(url, j)
  {
  }

  /** A URL `P + "_kind_" + N + ".export_metadata"` names kind N, verbatim, provided no
      marker starts inside P. That proviso is "P + \"_kind\" holds no marker": P alone
      holding none is not enough, because a P ending in "_kind" makes a marker that
      starts inside P (see OverlapShiftsKind). */
  lemma KindOfExportName(p: string, n: string)
    requires !ContainsMarker(p + "_kind")
    requires n != [] && NoLineTerminator(n)
    ensures KindOf(p + Marker + n + Suffix) == Some(n)
  {
    var s := p + Marker + n + Suffix;
    assert s[|p|..|p| + |Marker|] == Marker;
    assert s[|s| - |Suffix|..] == Suffix;
    assert s[|p| + |Marker|..|s| - |Suffix|] == n;
    assert MatchAt(s, |p|);
    forall j | 0 <= j < |p|
      ensures !MatchAt(s, j)
    {
      assert s[j..j + |Marker|] == (p + "_kind")[j..j + |Marker|];
      assert !MarkerAt(p + "_kind", j);
    }
  }

  /** Without any marker in the URL, nothing matches. */
  lemma NoMarkerNoKind(url: string)
    requires !ContainsMarker(url)
    ensures KindOf(url) == None
  {
    forall i | 0 <= i
      ensures !MatchAt(url, i)
    {
      assert !MarkerAt(url, i);
    }
  }

  /** An empty kind between the only marker and the suffix is no match: `.+` needs a character. */
  lemma EmptyKindNoKind(p: string)
    requires !ContainsMarker(p + "_kind")
    ensures KindOf(p + Marker + Suffix) == None
  {
    var s := p + Marker + Suffix;
    forall j | 0 <= j
      ensures !MatchAt(s, j)
    {
      if j < |p| {
        assert s[j..j + |Marker|] == (p + "_kind")[j..j + |Marker|];
        assert !MarkerAt(p + "_kind", j);
      }
    }
  }

  /** A directory part ending in "_kind" holds no marker, yet the match starts inside it
      and the kind comes out with a leading "kind_". */
  lemma OverlapShiftsKind()
    ensures !ContainsMarker("x_kind")
    ensures KindOf("x_kind" + Marker + "User" + Suffix) == Some("kind_User")
  {
    var s := "x_kind" + Marker + "User" + Suffix;
    assert !MarkerAt("x_kind", 0) by {
      assert "x_kind"[0..6][0] == 'x';
    }
    assert !MatchAt(s, 0) by {
      assert s[0..6] == "x_kind";
    }
    assert s[1..7] == Marker;
    assert s[7..|s| - |Suffix|] == "kind_User";
    assert s[|s| - |Suffix|..] == Suffix;
    assert MatchAt(s, 1);
  }
}
