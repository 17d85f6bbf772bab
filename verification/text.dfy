/** Python's string operations on lines, as the source uses them: `"\n".join(lines)`,
    `text.split('\n')` and `str.strip()`.  Strings are sequences of characters. */
module Text {

  /** `"\n".join(lines)`: the lines separated by single line breaks, no trailing break. */
  function Join(lines: seq<string>): (r: string)
    ensures lines == [] ==> r == ""
    ensures lines != [] ==> |r| == TotalLength(lines) + |lines| - 1
  {
    if |lines| == 0 then ""
    else if |lines| == 1 then lines[0]
    else lines[0] + "\n" + Join(lines[1..])
  }

  /** The number of characters in all the lines together. */
  function TotalLength(lines: seq<string>): nat
  {
    if lines == [] then 0 else |lines[0]| + TotalLength(lines[1..])
  }

  /** `s.split('\n')`: the pieces between line breaks.  There is always at least one
      piece (`"".split('\n') == ['']`), and no piece holds a line break. */
  function Split(s: string): (r: seq<string>)
    ensures |r| >= 1
    ensures forall i :: 0 <= i < |r| ==> '\n' !in r[i]
    decreases |s|
  {
    if |s| == 0 then [""]
    else
      var rest := Split(s[1..]);
      if s[0] == '\n' then [""] + rest
      else [[s[0]] + rest[0]] + rest[1..]
  }

  predicate NoLineBreaks(lines: seq<string>)
  {
    forall i :: 0 <= i < |lines| ==> '\n' !in lines[i]
  }

  lemma {:induction false} JoinConsHead(c: char, lines: seq<string>)
    requires |lines| >= 1
    ensures Join([[c] + lines[0]] + lines[1..]) == [c] + Join(lines)
  {
    var l := [[c] + lines[0]] + lines[1..];
    assert l[0] == [c] + lines[0];
    assert l[1..] == lines[1..];
    if |lines| > 1 {
      calc {
        Join(l);
        l[0] + "\n" + Join(l[1..]);
        [c] + (lines[0] + "\n" + Join(lines[1..]));
      }
    }
  }

  /** Splitting a text and joining the pieces gives the text back. */
  lemma {:induction false} JoinSplit(s: string)
    ensures Join(Split(s)) == s
    decreases |s|
  {
    if |s| > 0 {
      var rest := Split(s[1..]);
      JoinSplit(s[1..]);
      if s[0] == '\n' {
        assert ([""] + rest)[1..] == rest;
        assert s == "\n" + s[1..];
      } else {
        JoinConsHead(s[0], rest);
        assert s == [s[0]] + s[1..];
      }
    }
  }

  /** A text without line breaks continues the first piece of what follows it. */
  lemma {:induction false} SplitPrepend(a: string, b: string)
    requires '\n' !in a
    ensures Split(a + b) == [a + Split(b)[0]] + Split(b)[1..]
    decreases |a|
  {
    if |a| > 0 {
      assert (a + b)[1..] == a[1..] + b;
      assert (a + b)[0] == a[0];
      SplitPrepend(a[1..], b);
      assert [a[0]] + (a[1..] + Split(b)[0]) == a + Split(b)[0];
    } else {
      assert a + b == b;
      var sb := Split(b);
      assert a + sb[0] == sb[0];
      assert [sb[0]] + sb[1..] == sb;
    }
  }

  /** Joining lines that hold no line break and splitting the result gives the lines back. */
  lemma {:induction false} SplitJoin(lines: seq<string>)
    requires |lines| >= 1
    requires NoLineBreaks(lines)
    ensures Split(Join(lines)) == lines
    decreases |lines|
  {
    var head := lines[0];
    assert '\n' !in head;
    if |lines| == 1 {
      SplitPrepend(head, "");
      assert head + "" == head;
    } else {
      var rest := Join(lines[1..]);
      SplitJoin(lines[1..]);
      assert head + "\n" + rest == head + ("\n" + rest);
      SplitPrepend(head, "\n" + rest);
      assert ("\n" + rest)[1..] == rest;
      assert Split("\n" + rest) == [""] + lines[1..];
      assert head + "" == head;
    }
  }

  /** A line ending a join of several lines is what the joined text ends with. */
  lemma {:induction false} JoinSnoc(lines: seq<string>, last: string)
    requires |lines| >= 1
    ensures Join(lines + [last]) == Join(lines) + "\n" + last
    decreases |lines|
  {
    var l := lines + [last];
    if |lines| == 1 {
      assert l[1..] == [last];
    } else {
      assert l[1..] == lines[1..] + [last];
      JoinSnoc(lines[1..], last);
    }
  }

  /** A joined text starts with the first line and ends with the last, and it holds a
      line break as soon as there are two lines. */
  lemma {:induction false} JoinEnds(lines: seq<string>)
    requires lines != []
    ensures lines[0] <= Join(lines)
    ensures EndsWith(Join(lines), lines[|lines| - 1])
    ensures |lines| >= 2 ==> '\n' in Join(lines)
    decreases |lines|
  {
    if |lines| >= 2 {
      var head, rest := lines[0] + "\n", Join(lines[1..]);
      JoinEnds(lines[1..]);
      assert lines[1..][|lines[1..]| - 1] == lines[|lines| - 1];
      assert Join(lines) == head + rest;
      assert (head + rest)[..|lines[0]|] == lines[0];
      assert (head + rest)[|head + rest| - |lines[|lines| - 1]|..] == rest[|rest| - |lines[|lines| - 1]|..];
      assert (head + rest)[|lines[0]|] == '\n';
    }
  }

  /** Joining two non-empty lists of lines is joining each and putting one line break
      between the two texts. */
  lemma {:induction false} JoinAppend(a: seq<string>, b: seq<string>)
    requires |a| >= 1 && |b| >= 1
    ensures Join(a + b) == Join(a) + "\n" + Join(b)
    decreases |a|
  {
    var l := a + b;
    if |a| == 1 {
      assert l[1..] == b;
    } else {
      assert l[1..] == a[1..] + b;
      JoinAppend(a[1..], b);
      AppendAssociates(a[0] + "\n", Join(a[1..]), "\n" + Join(b));
      AppendAssociates(Join(a[1..]), "\n", Join(b));
    }
  }

  /** Concatenation regrouped; stated once so that proofs need not rediscover it. */
  lemma AppendAssociates<T>(a: seq<T>, b: seq<T>, c: seq<T>)
    ensures a + (b + c) == (a + b) + c
  {
  }

  /** The characters Python's `str.isspace()` accepts, which `str.strip()` removes. */
  predicate IsSpace(c: char)
  {
    c == ' ' || c == '\t' || c == '\n' || c == '\r' || c == '\U{0B}' || c == '\U{0C}'
    || ('\U{1C}' <= c <= '\U{1F}') || c == '\U{85}' || c == '\U{A0}' || c == '\U{1680}'
    || ('\U{2000}' <= c <= '\U{200A}') || c == '\U{2028}' || c == '\U{2029}'
    || c == '\U{202F}' || c == '\U{205F}' || c == '\U{3000}'
  }

  /** `s.endswith(suffix)`. */
  predicate EndsWith<T(==)>(s: seq<T>, suffix: seq<T>)
  {
    |suffix| <= |s| && s[|s| - |suffix|..] == suffix
  }

  /** `s.lstrip()`. */
  function TrimStart(s: string): string
    decreases |s|
  {
    if |s| > 0 && IsSpace(s[0]) then TrimStart(s[1..]) else s
  }

  /** `s.rstrip()`. */
  function TrimEnd(s: string): string
    decreases |s|
  {
    if |s| > 0 && IsSpace(s[|s| - 1]) then TrimEnd(s[..|s| - 1]) else s
  }

  /** Leading whitespace removed: a suffix of `s`, everything cut was whitespace, and
      what remains does not start with whitespace. */
  lemma {:induction false} TrimStartSpec(s: string)
    ensures var r := TrimStart(s);
            && |r| <= |s| && r == s[|s| - |r|..]
            && (forall k :: 0 <= k < |s| - |r| ==> IsSpace(s[k]))
            && (r == [] || !IsSpace(r[0]))
    decreases |s|
  {
    if |s| > 0 && IsSpace(s[0]) {
      TrimStartSpec(s[1..]);
    }
  }

  /** Trailing whitespace removed: a prefix of `s`, everything cut was whitespace, and
      what remains does not end with whitespace. */
  lemma {:induction false} TrimEndSpec(s: string)
    ensures var r := TrimEnd(s);
            && r <= s
            && (forall k :: |r| <= k < |s| ==> IsSpace(s[k]))
            && (r == [] || !IsSpace(r[|r| - 1]))
    decreases |s|
  {
    if |s| > 0 && IsSpace(s[|s| - 1]) {
      TrimEndSpec(s[..|s| - 1]);
    }
  }

  /** `s.strip()`. */
  function Strip(s: string): (r: string)
    ensures |r| <= |s|
    ensures r == [] || (!IsSpace(r[0]) && !IsSpace(r[|r| - 1]))
  {
    TrimStartSpec(s);
    TrimEndSpec(TrimStart(s));
    TrimEnd(TrimStart(s))
  }

  /** What `strip()` returns: a contiguous slice of `s` with only whitespace cut on
      either side, and neither of its ends whitespace. */
  lemma StripIsTrimmedSlice(s: string)
    ensures var r := Strip(s);
            && (exists i, j ::
                  && 0 <= i <= j <= |s| && r == s[i..j]
                  && (forall k :: 0 <= k < i ==> IsSpace(s[k]))
                  && (forall k :: j <= k < |s| ==> IsSpace(s[k])))
            && (r == [] || (!IsSpace(r[0]) && !IsSpace(r[|r| - 1])))
  {
    var t := TrimStart(s);
    var r := TrimEnd(t);
    TrimStartSpec(s);
    TrimEndSpec(t);
    assert r == s[|s| - |t|..|s| - |t| + |r|];
  }

  /** Stripping a line without a line break leaves none. */
  lemma StripKeepsNoLineBreak(s: string)
    requires '\n' !in s
    ensures '\n' !in Strip(s)
  {
    StripIsTrimmedSlice(s);
  }

  /** Stripping twice is stripping once. */
  lemma StripIdempotent(s: string)
    ensures Strip(Strip(s)) == Strip(s)
  {
    var r := Strip(s);
    StripIsTrimmedSlice(s);
    assert TrimStart(r) == r;
    assert TrimEnd(r) == r;
  }
}
