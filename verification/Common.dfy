/**
 * Values shared by every part of the converter: optional values and results
 * (Python's None and raised exceptions), IRIs, and the few list and string
 * operations the Python code leans on (`filter`, `s.split(c)[-1]`, `sub in s`).
 */
module Common {

  datatype Option<+T> = None | Some(value: T)

  /** A call either returns a value or raises; `Err` carries what was raised. */
  datatype Result<+T, +E> = Ok(value: T) | Err(error: E)

  /**
   * An IRI. `Named` IRIs come from the ontologies and the configuration;
   * `Generated` IRIs are the fresh identifiers the knowledge base hands out
   * for the states, situations and actions it creates.
   */
  datatype Iri = Named(text: string) | Generated(id: nat)

  // ---------------------------------------------------------------------------
  // Lists

  /** Python's `list(filter(p, s))`: the elements of `s` satisfying `p`, in order. */
  function Filter<T>(s: seq<T>, p: T -> bool): (r: seq<T>)
    ensures |r| <= |s|
  {
    if s == [] then [] else (if p(s[0]) then [s[0]] else []) + Filter(s[1..], p)
  }

  /** `a` is obtained from `b` by deleting elements, keeping the order of the rest. */
  predicate IsSubsequence<T(==)>(a: seq<T>, b: seq<T>)
    decreases |b|
  {
    if a == [] then true
    else if b == [] then false
    else (a[0] == b[0] && IsSubsequence(a[1..], b[1..])) || IsSubsequence(a, b[1..])
  }

  lemma {:induction false} FilterMembership<T>(s: seq<T>, p: T -> bool, x: T)
    ensures x in Filter(s, p) <==> x in s && p(x)
    decreases |s|
  {
    if s != [] {
      FilterMembership(s[1..], p, x);
      assert s == [s[0]] + s[1..];
    }
  }

  lemma {:induction false} FilterAppend<T>(a: seq<T>, b: seq<T>, p: T -> bool)
    ensures Filter(a + b, p) == Filter(a, p) + Filter(b, p)
    decreases |a|
  {
    if a != [] {
      assert (a + b)[1..] == a[1..] + b;
      FilterAppend(a[1..], b, p);
    } else {
      assert a + b == b;
    }
  }

  /** Filtering with two predicates that agree on every element gives the same list. */
  lemma {:induction false} FilterCongruent<T>(s: seq<T>, p: T -> bool, q: T -> bool)
    requires forall i | 0 <= i < |s| :: p(s[i]) == q(s[i])
    ensures Filter(s, p) == Filter(s, q)
    decreases |s|
  {
    if s != [] {
      assert forall i | 1 <= i < |s| :: s[1..][i - 1] == s[i];
      FilterCongruent(s[1..], p, q);
    }
  }

  /** Filtering twice is filtering once by the conjunction of the two tests. */
  lemma {:induction false} FilterTwice<T>(s: seq<T>, p: T -> bool, q: T -> bool, both: T -> bool)
    requires forall i | 0 <= i < |s| :: both(s[i]) == (p(s[i]) && q(s[i]))
    ensures Filter(Filter(s, p), q) == Filter(s, both)
    decreases |s|
  {
    if s != [] {
      assert forall i | 1 <= i < |s| :: s[1..][i - 1] == s[i];
      FilterTwice(s[1..], p, q, both);
      FilterAppend(if p(s[0]) then [s[0]] else [], Filter(s[1..], p), q);
    }
  }

  lemma {:induction false} FilterIsSubsequence<T>(s: seq<T>, p: T -> bool)
    ensures IsSubsequence(Filter(s, p), s)
    decreases |s|
  {
    if s != [] {
      FilterIsSubsequence(s[1..], p);
      if !p(s[0]) {
        assert Filter(s, p) == Filter(s[1..], p);
        SubsequenceOfTail(Filter(s[1..], p), s);
      }
    }
  }

  lemma SubsequenceOfTail<T>(a: seq<T>, b: seq<T>)
    requires b != [] && IsSubsequence(a, b[1..])
    ensures IsSubsequence(a, b)
  {
  }

  /** When every element satisfies the predicate, filtering keeps the whole list. */
  lemma {:induction false} FilterAll<T>(s: seq<T>, p: T -> bool)
    requires forall i | 0 <= i < |s| :: p(s[i])
    ensures Filter(s, p) == s
    decreases |s|
  {
    if s != [] {
      FilterAll(s[1..], p);
    }
  }

  // ---------------------------------------------------------------------------
  // Appending to a log
  //
  // A log grown one append at a time, regrouped as a single append; the
  // verifier does not regroup sequence appends unaided.

  lemma AppendToLog<T>(base: seq<T>, done: seq<T>, x: T, log: seq<T>)
    requires log == base + done + [x]
    ensures log == base + (done + [x])
  {
  }

  lemma AppendThree<T>(log: seq<T>, a: T, b: T, c: T, result: seq<T>)
    requires result == log + [a] + [b, c]
    ensures result == log + [a, b, c]
  {
  }

  lemma AppendFour<T>(log: seq<T>, a: T, b: T, c: T, d: T, result: seq<T>)
    requires result == log + [a] + [b, c] + [d]
    ensures result == log + [a, b, c, d]
  {
  }

  // ---------------------------------------------------------------------------
  // Strings

  /** Python's `s.endswith(suffix)`. */
  predicate EndsWith(s: string, suffix: string) {
    |suffix| <= |s| && s[|s| - |suffix|..] == suffix
  }

  /** Python's `sub in s` on strings: `sub` occurs in `s` as a contiguous piece. */
  predicate IsSubstring(sub: string, s: string) {
    exists i | 0 <= i <= |s| - |sub| :: OccursAt(sub, s, i)
  }

  /** `sub` occurs in `s` starting at index `i`. */
  predicate OccursAt(sub: string, s: string, i: int) {
    0 <= i && i + |sub| <= |s| && s[i..i + |sub|] == sub
  }

  /**
   * Python's `s.split(sep)[-1]`: the text after the last `sep`, or all of `s`
   * when `sep` does not occur in it.
   */
  function LastSegment(s: string, sep: char): (r: string)
    ensures sep !in r
    ensures |r| <= |s| && r == s[|s| - |r|..]
    ensures |r| < |s| ==> s[|s| - |r| - 1] == sep
    decreases |s|
  {
    if s == [] then []
    else if s[|s| - 1] == sep then []
    else
      var init := s[..|s| - 1];
      var tail := LastSegment(init, sep);
      assert s[|s| - |tail| - 1..] == init[|init| - |tail|..] + [s[|s| - 1]];
      tail + [s[|s| - 1]]
  }

  /** A string without the separator is its own last segment. */
  lemma {:induction false} LastSegmentNoSeparator(s: string, sep: char)
    requires sep !in s
    ensures LastSegment(s, sep) == s
    decreases |s|
  {
    if s != [] {
      assert s[..|s| - 1] + [s[|s| - 1]] == s;
      LastSegmentNoSeparator(s[..|s| - 1], sep);
    }
  }

  /** The last segment of `prefix + [sep] + tail` is `tail` when `tail` holds no separator. */
  lemma {:induction false} LastSegmentAfterSeparator(prefix: string, sep: char, tail: string)
    requires sep !in tail
    ensures LastSegment(prefix + [sep] + tail, sep) == tail
    decreases |tail|
  {
    var s := prefix + [sep] + tail;
    if tail == [] {
      assert s[|s| - 1] == sep;
    } else {
      var init := tail[..|tail| - 1];
      assert s[..|s| - 1] == prefix + [sep] + init;
      assert s[|s| - 1] == tail[|tail| - 1];
      LastSegmentAfterSeparator(prefix, sep, init);
      assert init + [tail[|tail| - 1]] == tail;
    }
  }
}
