/** The regular expression QuoteMeta(prefix) + "(.*)" + QuoteMeta(suffix)
    that the decrypting preprocessor compiles, with Go's regexp semantics:
    the prefix and suffix match literally, `.` matches any character except a
    newline, `.*` is greedy, and a search returns the leftmost match. */
module Pattern {
  import opened Wrappers

  type Text = string

  /** w occurs in t starting at index k, compared character by character. */
  predicate OccursAt(t: Text, k: nat, w: Text)
    decreases |w|
  {
    k + |w| <= |t| && (w == [] || (t[k] == w[0] && OccursAt(t, k + 1, w[1..])))
  }

  /** An occurrence is a slice of t equal to w. */
  lemma {:induction false} OccursAtIsSlice(t: Text, k: nat, w: Text)
    ensures OccursAt(t, k, w) <==> k + |w| <= |t| && t[k..k + |w|] == w
    decreases |w|
  {
    if w != [] && k + |w| <= |t| {
      OccursAtIsSlice(t, k + 1, w[1..]);
      assert t[k..k + |w|] == [t[k]] + t[k + 1..k + 1 + |w[1..]|];
      assert w == [w[0]] + w[1..];
    }
  }

  /** A slice is the concatenation of the slices it is cut into. */
  lemma SliceSplit(t: Text, a: nat, b: nat, c: nat, d: nat)
    requires a <= b <= c <= d <= |t|
    ensures t[a..d] == t[a..b] + t[b..c] + t[c..d]
  {
    assert t[a..d] == t[a..b] + t[b..d];
    assert t[b..d] == t[b..c] + t[c..d];
  }

  predicate LineFree(t: Text)
  {
    '\n' !in t
  }

  /** The pattern matches t[i..j + |s|] with the group capturing t[i + |p|..j]. */
  ghost predicate IsMatch(t: Text, p: Text, s: Text, i: nat, j: nat)
  {
    && OccursAt(t, i, p)
    && i + |p| <= j
    && OccursAt(t, j, s)
    && LineFree(t[i + |p|..j])
  }

  /** A match: where it starts and where its captured group ends. */
  datatype Span = Span(start: nat, captureEnd: nat)

  /** The span leaves room for the prefix before its capture and for the
      suffix after it, inside t. */
  predicate Fits(t: Text, p: Text, s: Text, sp: Span)
  {
    sp.start + |p| <= sp.captureEnd && sp.captureEnd + |s| <= |t|
  }

  /** The end of the line that contains index k: the first newline at or after k. */
  function LineEnd(t: Text, k: nat): (e: nat)
    requires k <= |t|
    ensures k <= e <= |t|
    ensures e == |t| || t[e] == '\n'
    decreases |t| - k
  {
    if k == |t| || t[k] == '\n' then k else LineEnd(t, k + 1)
  }

  /** No newline lies between k and the end of its line. */
  lemma {:induction false} LineEndIsLineFree(t: Text, k: nat)
    requires k <= |t|
    ensures LineFree(t[k..LineEnd(t, k)])
    decreases |t| - k
  {
    if k < |t| && t[k] != '\n' {
      LineEndIsLineFree(t, k + 1);
      assert t[k..LineEnd(t, k)] == [t[k]] + t[k + 1..LineEnd(t, k + 1)];
    }
  }

  /** Text from k up to j stays on one line exactly when j does not pass the line's end. */
  lemma LineFreeUpTo(t: Text, k: nat, j: nat)
    requires k <= j <= |t|
    ensures LineFree(t[k..j]) <==> j <= LineEnd(t, k)
  {
    var e := LineEnd(t, k);
    LineEndIsLineFree(t, k);
    if j <= e {
      assert forall i :: 0 <= i < j - k ==> t[k..j][i] == t[k..e][i];
    } else {
      assert t[k..j][e - k] == '\n';
    }
  }

  /** The last index in [lo, hi] at which w occurs (the last one by
      LastOccurrenceIsLast). */
  function LastOccurrence(t: Text, w: Text, lo: nat, hi: nat): (r: Option<nat>)
    ensures r.Some? ==> lo <= r.value <= hi && OccursAt(t, r.value, w)
    decreases hi
  {
    if hi < lo then None
    else if OccursAt(t, hi, w) then Some(hi)
    else if hi == lo then None
    else LastOccurrence(t, w, lo, hi - 1)
  }

  /** No occurrence of w lies in [lo, hi] after the one found, nor anywhere
      in [lo, hi] when none is found. */
  lemma {:induction false} LastOccurrenceIsLast(t: Text, w: Text, lo: nat, hi: nat)
    ensures var r := LastOccurrence(t, w, lo, hi);
      r.Some? ==> forall j :: r.value < j <= hi ==> !OccursAt(t, j, w)
    ensures LastOccurrence(t, w, lo, hi).None? ==> forall j :: lo <= j <= hi ==> !OccursAt(t, j, w)
    decreases hi
  {
    if lo < hi && !OccursAt(t, hi, w) {
      LastOccurrenceIsLast(t, w, lo, hi - 1);
    }
  }

  /** The match anchored at i, if any: the greedy `.*` makes its capture run
      to the last suffix occurrence that keeps it on one line (a match by
      MatchAtMatches, the longest by MatchAtIsGreedy). */
  function MatchAt(t: Text, p: Text, s: Text, i: nat): (r: Option<nat>)
    requires i <= |t|
    ensures r.Some? ==> i + |p| <= r.value && r.value + |s| <= |t|
  {
    if OccursAt(t, i, p) then
      var k := i + |p|;
      LastOccurrence(t, s, k, LineEnd(t, k))
    else None
  }

  /** What MatchAt finds is a match. */
  lemma MatchAtMatches(t: Text, p: Text, s: Text, i: nat)
    requires i <= |t|
    ensures MatchAt(t, p, s, i).Some? ==> IsMatch(t, p, s, i, MatchAt(t, p, s, i).value)
  {
    var r := MatchAt(t, p, s, i);
    if r.Some? {
      LineFreeUpTo(t, i + |p|, r.value);
    }
  }

  /** No match anchored at i captures more than MatchAt's, and when MatchAt
      finds none there is none. */
  lemma MatchAtIsGreedy(t: Text, p: Text, s: Text, i: nat)
    requires i <= |t|
    ensures MatchAt(t, p, s, i).Some? ==> forall j :: MatchAt(t, p, s, i).value < j ==> !IsMatch(t, p, s, i, j)
    ensures MatchAt(t, p, s, i).None? ==> forall j :: !IsMatch(t, p, s, i, j)
  {
    if OccursAt(t, i, p) {
      var k := i + |p|;
      var e := LineEnd(t, k);
      LastOccurrenceIsLast(t, s, k, e);
      forall j: nat | IsMatch(t, p, s, i, j)
        ensures k <= j <= e && OccursAt(t, j, s)
      {
        LineFreeUpTo(t, k, j);
      }
    }
  }

  /** The leftmost match starting at or after k, as Go's unanchored search
      finds it (leftmost and greedy by FindFromIsLeftmostGreedy). */
  function FindFrom(t: Text, p: Text, s: Text, k: nat): (r: Option<Span>)
    requires k <= |t|
    ensures r.Some? ==> k <= r.value.start && Fits(t, p, s, r.value)
    decreases |t| - k
  {
    match MatchAt(t, p, s, k)
    case Some(j) => Some(Span(k, j))
    case None => if k == |t| then None else FindFrom(t, p, s, k + 1)
  }

  /** What the search finds is a match. */
  lemma {:induction false} FindFromMatches(t: Text, p: Text, s: Text, k: nat)
    requires k <= |t|
    ensures var r := FindFrom(t, p, s, k);
      r.Some? ==> IsMatch(t, p, s, r.value.start, r.value.captureEnd)
    decreases |t| - k
  {
    MatchAtMatches(t, p, s, k);
    if MatchAt(t, p, s, k).None? && k < |t| {
      FindFromMatches(t, p, s, k + 1);
    }
  }

  /** The search finds the leftmost match, its capture runs as far as the
      greedy group allows, and no match is missed. */
  lemma {:induction false} FindFromIsLeftmostGreedy(t: Text, p: Text, s: Text, k: nat)
    requires k <= |t|
    ensures var r := FindFrom(t, p, s, k);
      r.Some? ==> forall j :: r.value.captureEnd < j ==> !IsMatch(t, p, s, r.value.start, j)
    ensures var r := FindFrom(t, p, s, k);
      r.Some? ==> forall i, j :: k <= i < r.value.start ==> !IsMatch(t, p, s, i, j)
    ensures FindFrom(t, p, s, k).None? ==> forall i, j :: k <= i ==> !IsMatch(t, p, s, i, j)
    decreases |t| - k
  {
    MatchAtIsGreedy(t, p, s, k);
    FindFromMatches(t, p, s, k);
    if MatchAt(t, p, s, k).None? {
      if k == |t| {
        NoMatchPastEnd(t, p, s);
      } else {
        FindFromIsLeftmostGreedy(t, p, s, k + 1);
      }
    }
  }

  lemma NoMatchPastEnd(t: Text, p: Text, s: Text)
    ensures forall i, j :: |t| < i ==> !IsMatch(t, p, s, i, j)
  {
  }
}
