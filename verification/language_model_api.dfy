/** The deterministic part of the completion facade: turning the texts of the choices
    the provider returned into candidates, one list of code lines per choice. */
module LanguageModelApi {
  import opened Text

  /** The stop sequences sent with every completion request. */
  const StopSequences: seq<string> := ["#"]

  /** A line survives the filter when it is non-empty and is not a stop sequence. */
  predicate Kept(line: string)
  {
    |line| > 0 && line !in StopSequences
  }

  /** `a` is `b` with some elements left out, the rest in their original order. */
  predicate IsSubsequence<T(==)>(a: seq<T>, b: seq<T>)
    decreases |b|
  {
    a == [] || (b != [] && ((a[0] == b[0] && IsSubsequence(a[1..], b[1..])) || IsSubsequence(a, b[1..])))
  }

  /** The filter of the comprehension: keeps exactly the kept lines, in order. */
  function FilterLines(lines: seq<string>): (r: seq<string>)
    ensures forall i :: 0 <= i < |r| ==> Kept(r[i])
    ensures |r| <= |lines|
    decreases |lines|
  {
    if lines == [] then []
    else if Kept(lines[0]) then [lines[0]] + FilterLines(lines[1..])
    else FilterLines(lines[1..])
  }

  /** One candidate: the choice's text split at line breaks, empty and stop lines dropped. */
  function CandidateLines(text: string): (r: seq<string>)
    ensures forall i :: 0 <= i < |r| ==> Kept(r[i]) && '\n' !in r[i]
  {
    var pieces := Split(text);
    FilterLinesSubsequence(pieces);
    var r := FilterLines(pieces);
    SubsequenceElements(r, pieces);
    assert forall i :: 0 <= i < |r| ==> r[i] in pieces;
    r
  }

  /** The candidates of a completion response: one per choice, in choice order. */
  function Candidates(texts: seq<string>): (r: seq<seq<string>>)
    ensures |r| == |texts|
    ensures forall i :: 0 <= i < |texts| ==> r[i] == CandidateLines(texts[i])
    decreases |texts|
  {
    if texts == [] then [] else [CandidateLines(texts[0])] + Candidates(texts[1..])
  }

  /** Every element of a subsequence is an element of the sequence. */
  lemma {:induction false} SubsequenceElements<T>(a: seq<T>, b: seq<T>)
    requires IsSubsequence(a, b)
    ensures forall x :: x in a ==> x in b
    decreases |b|
  {
    if a != [] {
      if a[0] == b[0] && IsSubsequence(a[1..], b[1..]) {
        SubsequenceElements(a[1..], b[1..]);
        assert forall x :: x in a ==> x == a[0] || x in a[1..];
        assert forall x :: x in b[1..] ==> x in b;
      } else {
        SubsequenceElements(a, b[1..]);
        assert forall x :: x in b[1..] ==> x in b;
      }
    }
  }

  /** The filter only leaves lines out; it never reorders or invents one. */
  lemma {:induction false} FilterLinesSubsequence(lines: seq<string>)
    ensures IsSubsequence(FilterLines(lines), lines)
    decreases |lines|
  {
    if lines != [] {
      FilterLinesSubsequence(lines[1..]);
      if Kept(lines[0]) {
        assert ([lines[0]] + FilterLines(lines[1..]))[1..] == FilterLines(lines[1..]);
      }
    }
  }

  /** The filter leaves out exactly the empty and stop lines: each kept line occurs as
      often as in the input, every other line not at all. */
  lemma {:induction false} FilterLinesCounts(lines: seq<string>, line: string)
    ensures multiset(FilterLines(lines))[line] == if Kept(line) then multiset(lines)[line] else 0
    decreases |lines|
  {
    if lines != [] {
      FilterLinesCounts(lines[1..], line);
      assert lines == [lines[0]] + lines[1..];
      assert multiset(lines) == multiset([lines[0]]) + multiset(lines[1..]);
    }
  }

  /** A list of kept lines passes the filter unchanged. */
  lemma {:induction false} FilterLinesKeepsKept(lines: seq<string>)
    requires forall i :: 0 <= i < |lines| ==> Kept(lines[i])
    ensures FilterLines(lines) == lines
    decreases |lines|
  {
    if lines != [] {
      FilterLinesKeepsKept(lines[1..]);
      assert [lines[0]] + lines[1..] == lines;
    }
  }

  /** Filtering an already-filtered candidate changes nothing. */
  lemma FilterLinesIdempotent(lines: seq<string>)
    ensures FilterLines(FilterLines(lines)) == FilterLines(lines)
  {
    FilterLinesKeepsKept(FilterLines(lines));
  }

  /** A candidate is an order-preserving selection of the choice's `split('\n')` pieces. */
  lemma CandidateIsSubsequenceOfPieces(text: string)
    ensures IsSubsequence(CandidateLines(text), Split(text))
  {
    FilterLinesSubsequence(Split(text));
  }
}
