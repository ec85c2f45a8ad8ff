/** Extraction of the version token from the URL that Discord's download
    endpoint redirects to: `re.search(r'discord-([0-9.]+)\.tar\.gz', url)`.

    `re.search` tries every start position from the left and returns the first
    one at which the pattern matches; at that position the greedy `[0-9.]+`
    takes the longest run it can and backs off one character at a time until
    `\.tar\.gz` matches. The model states exactly that: leftmost start,
    then the longest capture. */
module VersionInfo {
  import opened Wrappers

  const Prefix: string := "discord-"
  const Suffix: string := ".tar.gz"

  /** The result of `get_latest_version_info`: the final URL and its version. */
  datatype LatestVersion = LatestVersion(url: string, version: string)

  predicate IsVersionChar(c: char) {
    ('0' <= c <= '9') || c == '.'
  }

  predicate AllVersionChars(s: string) {
    forall i :: 0 <= i < |s| ==> IsVersionChar(s[i])
  }

  predicate PrefixAt(s: string, i: int) {
    0 <= i && i + |Prefix| <= |s| && s[i..i + |Prefix|] == Prefix
  }

  predicate SuffixAt(s: string, j: int) {
    0 <= j && j + |Suffix| <= |s| && s[j..j + |Suffix|] == Suffix
  }

  /** The pattern matches `s` at start `i` with a capture of length `k`. */
  predicate MatchAt(s: string, i: int, k: int) {
    1 <= k && PrefixAt(s, i) && i + |Prefix| + k <= |s|
    && AllVersionChars(s[i + |Prefix| .. i + |Prefix| + k])
    && SuffixAt(s, i + |Prefix| + k)
  }

  /** Length of the maximal run of version characters starting at `j`. */
  function RunLength(s: string, j: nat): (r: nat)
    requires j <= |s|
    ensures j + r <= |s|
    ensures AllVersionChars(s[j..j + r])
    ensures j + r == |s| || !IsVersionChar(s[j + r])
    decreases |s| - j
  {
    if j == |s| || !IsVersionChar(s[j]) then 0
    else
      var rest := RunLength(s, j + 1);
      assert s[j..j + 1 + rest] == [s[j]] + s[j + 1..j + 1 + rest];
      1 + rest
  }

  /** The suffix follows the first `m` characters after `j`. */
  predicate SuffixFollows(s: string, j: int, m: int) {
    SuffixAt(s, j + m)
  }

  /** Backtracking of the greedy group: the greatest `m` in `1..k` such that
      the suffix follows the first `m` characters after `j`. */
  function BackOff(s: string, j: nat, k: nat): (r: Option<nat>)
    ensures r.Some? ==> 1 <= r.value <= k && SuffixFollows(s, j, r.value)
    ensures r.Some? ==> forall m :: r.value < m <= k ==> !SuffixFollows(s, j, m)
    ensures r.None? ==> forall m :: 1 <= m <= k ==> !SuffixFollows(s, j, m)
  {
    if k == 0 then None
    else if SuffixFollows(s, j, k) then Some(k)
    else BackOff(s, j, k - 1)
  }

  /** A prefix of a run of version characters is one too. */
  lemma AllVersionCharsPrefix(s: string, j: nat, m: nat, r: nat)
    requires m <= r && j + r <= |s|
    requires AllVersionChars(s[j..j + r])
    ensures AllVersionChars(s[j..j + m])
  {
    assert s[j..j + m] == s[j..j + r][..m];
  }

  /** A capture cannot be longer than the maximal run of version characters. */
  lemma CaptureWithinRun(s: string, j: nat, m: nat)
    requires j <= |s| && j + m <= |s|
    requires AllVersionChars(s[j..j + m])
    ensures m <= RunLength(s, j)
  {
    var r := RunLength(s, j);
    assert j + r < |s| ==> !IsVersionChar(s[j + r]);
  }

  /** Every capture at `i` fits in the maximal run after the prefix. */
  lemma MatchWithinRun(s: string, i: nat, m: int)
    requires MatchAt(s, i, m)
    ensures m <= RunLength(s, i + |Prefix|) && SuffixFollows(s, i + |Prefix|, m)
  {
    CaptureWithinRun(s, i + |Prefix|, m);
  }

  /** The capture at start `i` that the greedy group settles on after
      backing off, or None when the pattern does not match there (that it is
      the longest one is `LongestAtIsLongest`). */
  function LongestAt(s: string, i: nat): (r: Option<nat>)
    ensures r.Some? ==> MatchAt(s, i, r.value)
  {
    if !PrefixAt(s, i) then None
    else
      var j := i + |Prefix|;
      var b := BackOff(s, j, RunLength(s, j));
      LongestAtFacts(s, i, b);
      b
  }

  lemma LongestAtFacts(s: string, i: nat, b: Option<nat>)
    requires PrefixAt(s, i)
    requires b == BackOff(s, i + |Prefix|, RunLength(s, i + |Prefix|))
    ensures b.Some? ==> MatchAt(s, i, b.value)
    ensures b.Some? ==> forall m :: b.value < m ==> !MatchAt(s, i, m)
    ensures b.None? ==> forall m :: !MatchAt(s, i, m)
  {
    var j := i + |Prefix|;
    var run := RunLength(s, j);
    if b.Some? {
      AllVersionCharsPrefix(s, j, b.value, run);
    }
    forall m | MatchAt(s, i, m) ensures b.Some? && m <= b.value {
      MatchWithinRun(s, i, m);
    }
  }

  /** At a start position the greedy group with backtracking yields the
      longest capture for which the pattern matches, and None only when no
      capture matches there. */
  lemma LongestAtIsLongest(s: string, i: nat)
    ensures var r := LongestAt(s, i);
      r.Some? ==> forall m :: r.value < m ==> !MatchAt(s, i, m)
    ensures LongestAt(s, i).None? ==> forall m :: !MatchAt(s, i, m)
  {
    if PrefixAt(s, i) {
      var j := i + |Prefix|;
      LongestAtFacts(s, i, BackOff(s, j, RunLength(s, j)));
    }
  }

  /** `re.search` from position `i`: the first start at or after `i` where
      the pattern matches, with the longest capture there (that it is the
      leftmost match is `SearchFromIsLeftmostLongest`). */
  function SearchFrom(s: string, i: nat): (r: Option<(nat, nat)>)
    requires i <= |s|
    ensures r.Some? ==> i <= r.value.0 && MatchAt(s, r.value.0, r.value.1)
    decreases |s| - i
  {
    if i == |s| then None
    else
      var here := LongestAt(s, i);
      if here.Some? then Some((i, here.value))
      else SearchFrom(s, i + 1)
  }

  /** No start between `i` and the one found matches, no longer capture
      matches at the found start, and the search fails only when the pattern
      matches nowhere at or after `i`. */
  lemma {:induction false} SearchFromIsLeftmostLongest(s: string, i: nat)
    requires i <= |s|
    ensures var r := SearchFrom(s, i);
      r.Some? ==> forall m :: r.value.1 < m ==> !MatchAt(s, r.value.0, m)
    ensures var r := SearchFrom(s, i);
      r.Some? ==> forall p, m :: i <= p < r.value.0 ==> !MatchAt(s, p, m)
    ensures SearchFrom(s, i).None? ==> forall p, m :: i <= p ==> !MatchAt(s, p, m)
    decreases |s| - i
  {
    if i < |s| {
      LongestAtIsLongest(s, i);
      if LongestAt(s, i).None? {
        SearchFromIsLeftmostLongest(s, i + 1);
        var r := SearchFrom(s, i);
        assert r == SearchFrom(s, i + 1);
        forall p, m | i <= p && (r.None? || p < r.value.0) ensures !MatchAt(s, p, m) {
          if p > i {
            assert i + 1 <= p;
          }
        }
      }
    }
  }

  /** The version part of `get_latest_version_info`, given the final URL that
      the HEAD request resolved to. */
  function ExtractVersion(url: string): (r: Option<LatestVersion>)
    ensures r.Some? ==>
      r.value.url == url && |r.value.version| > 0 && AllVersionChars(r.value.version)
  {
    match SearchFrom(url, 0)
    case None => None
    case Some((p, m)) =>
      Some(LatestVersion(url, url[p + |Prefix| .. p + |Prefix| + m]))
  }

  /** Extraction succeeds exactly when the pattern matches somewhere. */
  lemma ExtractVersionSucceedsIffMatch(url: string)
    ensures ExtractVersion(url).Some? <==> exists p, m :: MatchAt(url, p, m)
  {
    SearchFromIsLeftmostLongest(url, 0);
    if ExtractVersion(url).Some? {
      var found := SearchFrom(url, 0);
      assert MatchAt(url, found.value.0, found.value.1);
    }
  }

  /** The extracted version is the capture of the leftmost match, and the
      longest capture at that position. */
  lemma ExtractVersionIsLeftmostLongest(url: string)
    requires ExtractVersion(url).Some?
    ensures exists p, m ::
      MatchAt(url, p, m)
      && ExtractVersion(url).value.version == url[p + |Prefix| .. p + |Prefix| + m]
      && (forall q, n :: 0 <= q < p ==> !MatchAt(url, q, n))
      && (forall n :: m < n ==> !MatchAt(url, p, n))
  {
    SearchFromIsLeftmostLongest(url, 0);
    var found := SearchFrom(url, 0);
    var p, m := found.value.0, found.value.1;
    assert MatchAt(url, p, m);
  }

  /** A redirect target `pre + "discord-" + v + ".tar.gz"` with no match
      starting inside `pre` yields exactly `v`, for any non-empty `v` made of
      digits and dots. */
  lemma {:induction false} EmbeddedTokenExtracted(pre: string, v: string)
    requires |v| > 0 && AllVersionChars(v)
    requires forall q, n :: 0 <= q < |pre| ==> !MatchAt(pre + Prefix + v + Suffix, q, n)
    ensures ExtractVersion(pre + Prefix + v + Suffix)
         == Some(LatestVersion(pre + Prefix + v + Suffix, v))
  {
    var url := pre + Prefix + v + Suffix;
    var p, j := |pre|, |pre| + |Prefix|;
    assert url[p..j] == Prefix;
    assert url[j..j + |v|] == v;
    assert url[j + |v|..j + |v| + |Suffix|] == Suffix;
    assert MatchAt(url, p, |v|);
    // Beyond |v| the only version character left is the suffix's dot, and
    // "tar.gz" does not start with a dot.
    forall n | |v| < n ensures !MatchAt(url, p, n) {
      if n == |v| + 1 {
        assert !SuffixAt(url, j + n) by { assert url[j + n] == 't'; }
      } else if j + n <= |url| {
        assert !AllVersionChars(url[j..j + n]) by {
          assert url[j..j + n][|v| + 1] == url[j + |v| + 1] == 't';
        }
      }
    }
    SearchFromIsLeftmostLongest(url, 0);
    var found := SearchFrom(url, 0);
    assert found.Some?;
    assert found.value.0 == p;
    assert found.value.1 == |v|;
  }

  /** The code does not check that the token is well formed: two dots and no
      digit are accepted, and the capture is the single dot. */
  lemma MalformedTokenAccepted()
    ensures ExtractVersion("discord-..tar.gz") == Some(LatestVersion("discord-..tar.gz", "."))
  {
    var url := "discord-..tar.gz";
    assert MatchAt(url, 0, 1);
    assert !SuffixAt(url, 10);
    assert !MatchAt(url, 0, 2);
    LongestAtIsLongest(url, 0);
    assert LongestAt(url, 0) == Some(1);
    assert SearchFrom(url, 0) == Some((0, 1));
    assert url[8..9] == ".";
  }
}
