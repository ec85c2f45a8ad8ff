/** How `_on_stdout_ready` and `_on_stderr_ready` turn a block of process
    output into log lines: `output.strip().split('\n')`, keeping the
    non-empty pieces. */
module ProcessOutput {

  /** The characters Python's `str.isspace` accepts, which `str.strip()`
      removes from both ends. */
  predicate IsSpace(c: char) {
    ('\t' <= c <= '\r') || ('\U{1c}' <= c <= ' ') || c == '\U{85}' || c == '\U{a0}'
    || c == '\U{1680}' || ('\U{2000}' <= c <= '\U{200a}') || c == '\U{2028}' || c == '\U{2029}'
    || c == '\U{202f}' || c == '\U{205f}' || c == '\U{3000}'
  }

  /** Number of leading whitespace characters. */
  function LeadingSpace(s: string): (n: nat)
    ensures n <= |s|
    ensures forall i :: 0 <= i < n ==> IsSpace(s[i])
    ensures n == |s| || !IsSpace(s[n])
  {
    if s == [] || !IsSpace(s[0]) then 0 else 1 + LeadingSpace(s[1..])
  }

  /** Number of trailing whitespace characters. */
  function TrailingSpace(s: string): (n: nat)
    ensures n <= |s|
    ensures forall i :: |s| - n <= i < |s| ==> IsSpace(s[i])
    ensures n == |s| || !IsSpace(s[|s| - n - 1])
  {
    if s == [] || !IsSpace(s[|s| - 1]) then 0 else 1 + TrailingSpace(s[..|s| - 1])
  }

  /** `str.strip()`: the slice between the leading and the trailing
      whitespace; empty when everything is whitespace. */
  function Strip(s: string): (r: string)
    ensures exists i, j ::
      (&& 0 <= i <= j <= |s| && r == s[i..j]
       && (forall k :: 0 <= k < i ==> IsSpace(s[k]))
       && (forall k :: j <= k < |s| ==> IsSpace(s[k])))
    ensures r != [] ==> !IsSpace(r[0]) && !IsSpace(r[|r| - 1])
  {
    var i := LeadingSpace(s);
    if i == |s| then
      assert s[i..i] == [];
      []
    else
      var t := TrailingSpace(s[i..]);
      assert t < |s| - i;
      var j := |s| - t;
      assert forall k :: j <= k < |s| ==> s[k] == s[i..][k - i];
      s[i..j]
  }

  /** `str.split('\n')`: the pieces between the newlines, at least one. */
  function Split(s: string): (r: seq<string>)
    ensures |r| >= 1
    ensures forall k :: 0 <= k < |r| ==> '\n' !in r[k]
    decreases |s|
  {
    if '\n' !in s then [s]
    else
      var i := FirstNewline(s);
      [s[..i]] + Split(s[i + 1..])
  }

  function FirstNewline(s: string): (i: nat)
    requires '\n' in s
    ensures i < |s| && s[i] == '\n' && '\n' !in s[..i]
  {
    if s[0] == '\n' then 0
    else
      var i := FirstNewline(s[1..]);
      assert s[..i + 1] == [s[0]] + s[1..][..i];
      i + 1
  }

  /** `'\n'.join(parts)`. */
  function Join(parts: seq<string>): string
    requires |parts| >= 1
  {
    if |parts| == 1 then parts[0] else parts[0] + "\n" + Join(parts[1..])
  }

  /** Joining the pieces again gives back the text: nothing is lost or
      invented by the split. */
  lemma {:induction false} JoinSplit(s: string)
    ensures Join(Split(s)) == s
    decreases |s|
  {
    if '\n' in s {
      var i := FirstNewline(s);
      JoinSplit(s[i + 1..]);
      assert Split(s)[1..] == Split(s[i + 1..]);
      assert s == s[..i] + "\n" + s[i + 1..];
    }
  }

  /** The pieces that are not empty, in order. */
  function NonEmpty(parts: seq<string>): (r: seq<string>)
    ensures forall k :: 0 <= k < |r| ==> r[k] != [] && r[k] in parts
    ensures forall p :: p in parts && p != [] ==> p in r
  {
    if parts == [] then []
    else (if parts[0] == [] then [] else [parts[0]]) + NonEmpty(parts[1..])
  }

  /** Dropping the empty pieces distributes over concatenation. */
  lemma {:induction false} NonEmptyAppend(a: seq<string>, b: seq<string>)
    ensures NonEmpty(a + b) == NonEmpty(a) + NonEmpty(b)
  {
    if a != [] {
      assert (a + b)[0] == a[0];
      assert (a + b)[1..] == a[1..] + b;
      NonEmptyAppend(a[1..], b);
    } else {
      assert a + b == b;
    }
  }

  /** One piece is kept exactly when it is not empty. */
  lemma NonEmptyOne(p: string)
    ensures NonEmpty([p]) == if p == [] then [] else [p]
  {
    assert [p][1..] == [];
  }

  /** The positions of the non-empty pieces, in increasing order. */
  function KeptIndices(parts: seq<string>): seq<nat> {
    if parts == [] then []
    else KeptIndices(parts[..|parts| - 1]) + (if parts[|parts| - 1] == [] then [] else [|parts| - 1])
  }

  /** The kept positions are valid and strictly increasing. */
  lemma {:induction false} KeptIndicesIncreasing(parts: seq<string>)
    ensures forall k :: 0 <= k < |KeptIndices(parts)| ==> KeptIndices(parts)[k] < |parts|
    ensures forall k, l :: 0 <= k < l < |KeptIndices(parts)| ==> KeptIndices(parts)[k] < KeptIndices(parts)[l]
  {
    if parts != [] {
      var n := |parts| - 1;
      KeptIndicesIncreasing(parts[..n]);
    }
  }

  /** Every non-empty piece's position is kept. */
  lemma {:induction false} KeptIndicesCover(parts: seq<string>)
    ensures forall i :: 0 <= i < |parts| && parts[i] != [] ==> i in KeptIndices(parts)
  {
    if parts != [] {
      var n := |parts| - 1;
      var init := parts[..n];
      KeptIndicesCover(init);
      forall i | 0 <= i < n && parts[i] != []
        ensures i in KeptIndices(parts)
      {
        assert parts[i] == init[i];
      }
    }
  }

  /** The k-th kept piece is the piece at the k-th kept position. */
  lemma {:induction false} NonEmptyAtKept(parts: seq<string>)
    ensures var r, f := NonEmpty(parts), KeptIndices(parts);
      |f| == |r| && forall k :: 0 <= k < |r| ==> f[k] < |parts| && r[k] == parts[f[k]]
  {
    if parts != [] {
      var n := |parts| - 1;
      var init := parts[..n];
      NonEmptyAtKept(init);
      assert init + [parts[n]] == parts;
      NonEmptyAppend(init, [parts[n]]);
      NonEmptyOne(parts[n]);
      var r0, f0 := NonEmpty(init), KeptIndices(init);
      var r, f := NonEmpty(parts), KeptIndices(parts);
      forall k | 0 <= k < |r|
        ensures f[k] < |parts| && r[k] == parts[f[k]]
      {
        if k < |r0| {
          assert r[k] == r0[k] && f[k] == f0[k];
          assert init[f0[k]] == parts[f0[k]];
        }
      }
    }
  }

  /** `NonEmpty` keeps order and multiplicity: its k-th element is the piece
      at the k-th position of a strictly increasing sequence of positions
      that holds every non-empty piece. */
  lemma NonEmptyKeepsOrder(parts: seq<string>)
    ensures var r, f := NonEmpty(parts), KeptIndices(parts);
      && |f| == |r|
      && (forall k :: 0 <= k < |r| ==> f[k] < |parts| && r[k] == parts[f[k]])
      && (forall k, l :: 0 <= k < l < |f| ==> f[k] < f[l])
      && (forall i :: 0 <= i < |parts| && parts[i] != [] ==> i in f)
  {
    KeptIndicesIncreasing(parts);
    KeptIndicesCover(parts);
    NonEmptyAtKept(parts);
  }

  /** The lines one readiness signal logs, in order. */
  function LogLines(output: string): (r: seq<string>)
    ensures forall k :: 0 <= k < |r| ==> r[k] != [] && '\n' !in r[k]
  {
    NonEmpty(Split(Strip(output)))
  }

  /** The logged lines are the non-empty pieces of the stripped output, each
      once and in the order they occur: the k-th logged line is the piece at
      the k-th of a strictly increasing sequence of positions that holds
      every non-empty piece. */
  lemma LogLinesInOrder(output: string)
    ensures var pieces := Split(Strip(output));
      var r, f := LogLines(output), KeptIndices(pieces);
      && |f| == |r|
      && (forall k :: 0 <= k < |r| ==> f[k] < |pieces| && r[k] == pieces[f[k]])
      && (forall k, l :: 0 <= k < l < |f| ==> f[k] < f[l])
      && (forall i :: 0 <= i < |pieces| && pieces[i] != [] ==> i in f)
  {
    NonEmptyKeepsOrder(Split(Strip(output)));
  }

  /** Output that is only whitespace logs nothing. */
  lemma BlankOutputLogsNothing(output: string)
    requires forall k :: 0 <= k < |output| ==> IsSpace(output[k])
    ensures LogLines(output) == []
  {
    var i := LeadingSpace(output);
    assert i == |output|;
    assert Strip(output) == [];
    assert Split([]) == [[]];
    assert NonEmpty([[]]) == [] + NonEmpty([]);
  }

  /** Every non-blank line of the stripped output is logged. */
  lemma EveryLineLogged(output: string, line: string)
    requires line in Split(Strip(output)) && line != []
    ensures line in LogLines(output)
  {
  }
}
