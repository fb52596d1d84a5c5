/**
 * The Python string operations the generator relies on: `pat in s`,
 * `s.split(sep)` with the left-to-right search for `sep` it performs,
 * `sep.join(parts)` and iteration over the lines of a text file.
 */
module Strings {
  import opened Common

  /** `pat` occurs in `s` starting at index `i`. */
  predicate OccursAt(s: string, pat: string, i: int)
  {
    0 <= i && i + |pat| <= |s| && s[i..i + |pat|] == pat
  }

  /** The first index at or after `k` at which `pat` occurs, if any. */
  function FindFrom(s: string, pat: string, k: nat): (r: Option<nat>)
    ensures r.Some? ==> k <= r.value && OccursAt(s, pat, r.value)
    ensures r.Some? ==> forall j :: k <= j < r.value ==> !OccursAt(s, pat, j)
    ensures r.None? ==> forall j :: k <= j ==> !OccursAt(s, pat, j)
    decreases |s| - k
  {
    if k + |pat| > |s| then None
    else if OccursAt(s, pat, k) then Some(k)
    else FindFrom(s, pat, k + 1)
  }

  /** The search `s.split(pat)` performs: the lowest index at which `pat` occurs, or `None`. */
  function Find(s: string, pat: string): (r: Option<nat>)
    ensures r.Some? ==> OccursAt(s, pat, r.value)
    ensures r.Some? ==> forall j :: 0 <= j < r.value ==> !OccursAt(s, pat, j)
    ensures r.None? ==> forall j :: !OccursAt(s, pat, j)
  {
    FindFrom(s, pat, 0)
  }

  /** The first index at or after `k` at which the character `c` is, if any. */
  function IndexFrom(s: string, c: char, k: nat): (r: Option<nat>)
    requires k <= |s|
    ensures r.Some? ==> k <= r.value < |s| && s[r.value] == c
    ensures r.Some? ==> forall j :: k <= j < r.value ==> s[j] != c
    ensures r.None? ==> forall j :: k <= j < |s| ==> s[j] != c
    decreases |s| - k
  {
    if k == |s| then None
    else if s[k] == c then Some(k)
    else IndexFrom(s, c, k + 1)
  }

  /** The same search for a single character `c`, as used to cut a text into lines. */
  function IndexOf(s: string, c: char): (r: Option<nat>)
    ensures r.Some? ==> r.value < |s| && s[r.value] == c
    ensures r.Some? ==> forall j :: 0 <= j < r.value ==> s[j] != c
    ensures r.None? <==> forall j :: 0 <= j < |s| ==> s[j] != c
  {
    IndexFrom(s, c, 0)
  }

  /** `IndexOf` reports a `c` that no earlier `c` precedes. */
  lemma IndexOfIs(s: string, c: char, k: nat)
    requires k < |s| && s[k] == c
    requires forall j :: 0 <= j < k ==> s[j] != c
    ensures IndexOf(s, c) == Some(k)
  {
  }

  /** The first `c` of `a` is also the first one of `a + b`. */
  lemma IndexOfPrefix(a: string, b: string, c: char)
    requires IndexOf(a, c).Some?
    ensures IndexOf(a + b, c) == IndexOf(a, c)
  {
    var k := IndexOf(a, c).value;
    assert (a + b)[k] == a[k];
    forall j | 0 <= j < k ensures (a + b)[j] != c {
      assert (a + b)[j] == a[j];
    }
    IndexOfIs(a + b, c, k);
  }

  /** `pat in s`: `pat` occurs somewhere in `s`. */
  predicate Contains(s: string, pat: string)
    ensures pat == [] ==> Contains(s, pat)
    ensures Contains(s, pat) ==> |pat| <= |s|
  {
    assert pat == [] ==> OccursAt(s, pat, 0);
    exists j :: 0 <= j <= |s| - |pat| && OccursAt(s, pat, j)
  }

  /** `Find` succeeds exactly when `pat in s`. */
  lemma FindIffContains(s: string, pat: string)
    ensures Find(s, pat).Some? <==> Contains(s, pat)
  {
    if Find(s, pat).Some? {
      assert OccursAt(s, pat, Find(s, pat).value);
    }
  }

  /** Every string contains itself. */
  lemma ContainsSelf(m: string)
    ensures Contains(m, m)
  {
    assert OccursAt(m, m, 0) by { assert m[0..|m|] == m; }
  }

  /** What `x` contains, `x + y` contains. */
  lemma ContainsLeft(x: string, y: string, m: string)
    requires Contains(x, m)
    ensures Contains(x + y, m)
  {
    var j :| 0 <= j <= |x| - |m| && OccursAt(x, m, j);
    OccursInPrefix(x, y, m, j);
  }

  /** What `y` contains, `x + y` contains. */
  lemma ContainsRight(x: string, y: string, m: string)
    requires Contains(y, m)
    ensures Contains(x + y, m)
  {
    var j :| 0 <= j <= |y| - |m| && OccursAt(y, m, j);
    assert (x + y)[|x|..|x + y|] == y;
    OccursInSlice(x + y, m, |x|, |x + y|, j);
  }

  /** `x + a + b + y` contains `a + b`. */
  lemma ContainsJoint(x: string, a: string, b: string, y: string)
    ensures Contains(x + a + b + y, a + b)
  {
    ContainsSelf(a + b);
    ContainsRight(x, a + b, a + b);
    AppendAssoc(x, a, b);
    ContainsLeft(x + a + b, y, a + b);
  }

  /** `Find` reports an occurrence that no earlier occurrence precedes. */
  lemma FindFirst(s: string, pat: string, k: int)
    requires OccursAt(s, pat, k)
    requires forall j :: 0 <= j < k ==> !OccursAt(s, pat, j)
    ensures Find(s, pat) == Some(k)
  {
  }

  /** An occurrence that lies within the prefix `u` of `u + w` is one in `u`. */
  lemma OccursInPrefix(u: string, w: string, pat: string, j: int)
    requires 0 <= j && j + |pat| <= |u|
    ensures OccursAt(u + w, pat, j) <==> OccursAt(u, pat, j)
  {
    assert (u + w)[j..j + |pat|] == u[j..j + |pat|];
  }

  /** An occurrence in `s[..n]` or in `s[k..]` is one in `s`. */
  lemma OccursInSlice(s: string, pat: string, k: nat, n: nat, j: int)
    requires k <= n <= |s|
    requires OccursAt(s[k..n], pat, j)
    ensures OccursAt(s, pat, k + j)
  {
    var a, b := s[k..n][j..j + |pat|], s[k + j..k + j + |pat|];
    assert a == b by {
      forall m | 0 <= m < |pat| ensures a[m] == b[m] {
        assert a[m] == s[k + j + m];
      }
    }
  }

  /** A string without `pat` has no `pat` in any of its slices. */
  lemma SliceAvoids(s: string, pat: string, k: nat, n: nat)
    requires k <= n <= |s|
    requires !Contains(s, pat)
    ensures !Contains(s[k..n], pat)
  {
    forall j | OccursAt(s[k..n], pat, j)
      ensures false
    {
      OccursInSlice(s, pat, k, n, j);
    }
  }

  /** A prefix of a text without `pat` has no `pat` either. */
  lemma PrefixAvoids(s: string, pat: string, n: nat)
    requires n <= |s| && !Contains(s, pat)
    ensures !Contains(s[..n], pat)
  {
    SliceAvoids(s, pat, 0, n);
    assert s[0..n] == s[..n];
  }

  /** A string lacking one of the characters of `pat` does not contain `pat`. */
  lemma AbsentChar(s: string, pat: string, m: nat)
    requires m < |pat| && pat[m] !in s
    ensures !Contains(s, pat)
  {
    forall j | 0 <= j && j + |pat| <= |s|
      ensures !OccursAt(s, pat, j)
    {
      assert s[j..j + |pat|][m] == s[j + m];
    }
  }

  /** The first character of `pat` does not recur in `pat`. */
  predicate LeadUnique(pat: string)
  {
    |pat| > 0 && forall k :: 0 < k < |pat| ==> pat[k] != pat[0]
  }

  /**
   * In `u + w`, where `u` does not contain `pat` and `w` starts with the first
   * character of `pat`, no occurrence of `pat` starts inside `u`.
   */
  lemma NoOccurrenceStartsIn(u: string, w: string, pat: string)
    requires LeadUnique(pat) && !Contains(u, pat)
    requires w != [] && w[0] == pat[0]
    ensures forall j :: 0 <= j < |u| ==> !OccursAt(u + w, pat, j)
  {
    forall j | 0 <= j < |u|
      ensures !OccursAt(u + w, pat, j)
    {
      if j + |pat| <= |u| {
        OccursInPrefix(u, w, pat, j);
        assert !OccursAt(u, pat, j);
      } else if j + |pat| <= |u + w| {
        var k := |u| - j;
        assert (u + w)[j..j + |pat|][k] == w[0];
      }
    }
  }

  /** `pat` occurs in `u + w` where `w` begins. */
  lemma OccursAtJoint(u: string, w: string, pat: string)
    requires |pat| <= |w| && w[..|pat|] == pat
    ensures OccursAt(u + w, pat, |u|)
  {
    assert (u + w)[|u|..|u| + |pat|] == w[..|pat|];
  }

  /** `(u + w).find(pat) == len(u)` when `w` starts with `pat` and `u` does not contain it. */
  lemma FindAtBoundary(u: string, w: string, pat: string)
    requires LeadUnique(pat) && !Contains(u, pat)
    requires |pat| <= |w| && w[..|pat|] == pat
    ensures Find(u + w, pat) == Some(|u|)
  {
    NoOccurrenceStartsIn(u, w, pat);
    OccursAtJoint(u, w, pat);
    FindFirst(u + w, pat, |u|);
  }

  /** The first occurrence in `u` is also the first one in `u + w`. */
  lemma FindInPrefix(u: string, w: string, pat: string)
    requires Find(u, pat).Some?
    ensures Find(u + w, pat) == Find(u, pat)
  {
    var i := Find(u, pat).value;
    OccursInPrefix(u, w, pat, i);
    forall j | 0 <= j < i
      ensures !OccursAt(u + w, pat, j)
    {
      OccursInPrefix(u, w, pat, j);
    }
    FindFirst(u + w, pat, i);
  }

  /** `sep.join(parts)`. */
  function Join(parts: seq<string>, sep: string): (r: string)
    ensures |parts| > 0 ==> |parts[0]| <= |r| && r[..|parts[0]|] == parts[0]
    ensures |parts| > 1 ==> |parts[0]| + |sep| <= |r| && r[|parts[0]|..|parts[0]| + |sep|] == sep
  {
    if |parts| == 0 then ""
    else if |parts| == 1 then parts[0]
    else parts[0] + sep + Join(parts[1..], sep)
  }

  /**
   * `s.split(sep)`: the pieces between the non-overlapping occurrences of
   * `sep`, found from left to right. Python refuses an empty separator.
   */
  function Split(s: string, sep: string): (r: seq<string>)
    requires sep != []
    ensures |r| >= 1
    ensures |r| >= 2 <==> Contains(s, sep)
    decreases |s|
  {
    match Find(s, sep)
    case None => [s]
    case Some(i) => [s[..i]] + Split(s[i + |sep|..], sep)
  }

  /** `s.split(sep)` unfolded at the first occurrence, index `i`, of `sep`. */
  lemma SplitAtFirst(s: string, sep: string, i: nat)
    requires sep != [] && Find(s, sep) == Some(i)
    ensures Split(s, sep) == [s[..i]] + Split(s[i + |sep|..], sep)
  {
  }

  /** Joining a piece onto a non-empty list of pieces. */
  lemma JoinCons(h: string, parts: seq<string>, sep: string)
    requires parts != []
    ensures Join([h] + parts, sep) == h + sep + Join(parts, sep)
  {
    assert ([h] + parts)[1..] == parts;
  }

  /** No piece of `s.split(sep)` contains `sep`. */
  lemma {:induction false} SplitPiecesAvoid(s: string, sep: string)
    requires sep != []
    ensures forall k :: 0 <= k < |Split(s, sep)| ==> !Contains(Split(s, sep)[k], sep)
    decreases |s|
  {
    match Find(s, sep)
    case None =>
    case Some(i) =>
      var rest := s[i + |sep|..];
      var head, tail := s[..i], Split(rest, sep);
      assert Split(s, sep) == [head] + tail by {
        SplitAtFirst(s, sep, i);
      }
      assert !Contains(head, sep) by {
        SliceAvoidsBeforeFirst(s, sep, i);
      }
      assert forall k :: 0 <= k < |tail| ==> !Contains(tail[k], sep) by {
        SplitPiecesAvoid(rest, sep);
      }
      ConsAvoids(head, tail, sep);
  }

  /** Every piece of `[head] + tail` avoids `sep` when `head` and each piece of `tail` do. */
  lemma ConsAvoids(head: string, tail: seq<string>, sep: string)
    requires !Contains(head, sep)
    requires forall k :: 0 <= k < |tail| ==> !Contains(tail[k], sep)
    ensures forall k :: 0 <= k < |[head] + tail| ==> !Contains(([head] + tail)[k], sep)
  {
    forall k | 0 <= k < |[head] + tail| ensures !Contains(([head] + tail)[k], sep) {
      if k > 0 {
        assert ([head] + tail)[k] == tail[k - 1];
      }
    }
  }

  /** `sep.join(s.split(sep)) == s`. */
  lemma {:induction false} SplitJoin(s: string, sep: string)
    requires sep != []
    ensures Join(Split(s, sep), sep) == s
    decreases |s|
  {
    match Find(s, sep)
    case None =>
    case Some(i) =>
      var rest := s[i + |sep|..];
      SplitJoin(rest, sep);
      assert ([s[..i]] + Split(rest, sep))[1..] == Split(rest, sep);
      assert s == s[..i] + sep + rest;
  }

  /** The text before the first occurrence of `sep` does not contain `sep`. */
  lemma SliceAvoidsBeforeFirst(s: string, sep: string, i: nat)
    requires sep != [] && Find(s, sep) == Some(i)
    ensures !Contains(s[..i], sep)
  {
    forall j | 0 <= j && j + |sep| <= i
      ensures !OccursAt(s[..i], sep, j)
    {
      assert s[..i][j..j + |sep|] == s[j..j + |sep|];
      assert !OccursAt(s, sep, j);
    }
  }

  /** `s.split(sep)[0]`: the text before the first `sep`, or all of `s`. */
  function FirstPiece(s: string, sep: string): string
    requires sep != []
  {
    match Find(s, sep)
    case None => s
    case Some(i) => s[..i]
  }

  /** `s.split(sep)[0]` is a prefix of `s` without `sep` that ends where `s` or the first `sep` does. */
  lemma FirstPieceSpec(s: string, sep: string)
    requires sep != []
    ensures var h := FirstPiece(s, sep);
      |h| <= |s| && h == s[..|h|] && !Contains(h, sep) && (|h| == |s| || OccursAt(s, sep, |h|))
    ensures forall j :: 0 <= j < |FirstPiece(s, sep)| ==> !OccursAt(s, sep, j)
  {
    if Find(s, sep).Some? {
      SliceAvoidsBeforeFirst(s, sep, Find(s, sep).value);
    }
  }

  /** `s.split(sep)[1]`, which exists when `sep in s`: the first piece of the text after the first `sep`. */
  function SecondPiece(s: string, sep: string): string
    requires sep != [] && Find(s, sep).Some?
  {
    FirstPiece(s[Find(s, sep).value + |sep|..], sep)
  }

  /** `SecondPiece` with the first `sep` at index `i`. */
  lemma SecondPieceAt(s: string, sep: string, i: nat)
    requires sep != [] && Find(s, sep) == Some(i)
    ensures SecondPiece(s, sep) == FirstPiece(s[i + |sep|..], sep)
  {
  }

  /** `FirstPiece` is the head of `Split`. */
  lemma FirstPieceIsHead(s: string, sep: string)
    requires sep != []
    ensures Split(s, sep)[0] == FirstPiece(s, sep)
  {
  }

  /** `SecondPiece` is the second element of `Split`. */
  lemma SecondPieceIsSecond(s: string, sep: string)
    requires sep != [] && Find(s, sep).Some?
    ensures |Split(s, sep)| >= 2 && Split(s, sep)[1] == SecondPiece(s, sep)
  {
    FindIffContains(s, sep);
    var i := Find(s, sep).value;
    SplitAtFirst(s, sep, i);
    FirstPieceIsHead(s[i + |sep|..], sep);
  }

  /** Each occurrence of character `c` in `s` replaced by `d`. */
  function ReplaceChar(s: string, c: char, d: char): string
  {
    seq(|s|, i requires 0 <= i < |s| => if s[i] == c then d else s[i])
  }

  /** A one-character pattern occurs exactly where that character is. */
  lemma OccursChar(s: string, c: char, i: int)
    ensures OccursAt(s, [c], i) <==> 0 <= i < |s| && s[i] == c
  {
    if 0 <= i < |s| {
      assert s[i..i + 1] == [s[i]];
    }
  }

  /** A text without the one-character pattern `[c]` has no `c` at all. */
  lemma CharAbsent(s: string, c: char)
    requires !Contains(s, [c])
    ensures forall i :: 0 <= i < |s| ==> s[i] != c
  {
    forall i | 0 <= i < |s| ensures s[i] != c {
      OccursChar(s, c, i);
    }
  }

  /** Replacing in a text without `c` changes nothing. */
  lemma ReplaceAbsent(s: string, c: char, d: char)
    requires forall i :: 0 <= i < |s| ==> s[i] != c
    ensures ReplaceChar(s, c, d) == s
  {
  }

  /** Replacing around the first `c`, at index `i`. */
  lemma ReplaceAtFirst(s: string, c: char, d: char, i: nat)
    requires i < |s| && s[i] == c
    requires forall j :: 0 <= j < i ==> s[j] != c
    ensures ReplaceChar(s, c, d) == s[..i] + [d] + ReplaceChar(s[i + 1..], c, d)
  {
  }

  /** `d.join(s.split(c))` replaces every `c` by `d`, for one-character `c` and `d`. */
  lemma {:induction false} JoinSplitReplaces(s: string, c: char, d: char)
    ensures Join(Split(s, [c]), [d]) == ReplaceChar(s, c, d)
    decreases |s|
  {
    match Find(s, [c])
    case None =>
      CharAbsent(s, c);
      ReplaceAbsent(s, c, d);
    case Some(i) =>
      var rest := s[i + 1..];
      JoinSplitReplaces(rest, c, d);
      SplitAtFirst(s, [c], i);
      OccursChar(s, c, i);
      SliceAvoidsBeforeFirst(s, [c], i);
      CharAbsent(s[..i], c);
      ReplaceAtFirst(s, c, d, i);
      JoinCons(s[..i], Split(rest, [c]), [d]);
  }

  /** The lines of a text file as Python iterates them: each keeps its `'\n'`, the last may lack one. */
  function Lines(text: string): (r: seq<string>)
    ensures forall k :: 0 <= k < |r| ==> r[k] != ""
    decreases |text|
  {
    match IndexOf(text, '\n')
    case None => if text == "" then [] else [text]
    case Some(i) => [text[..i + 1]] + Lines(text[i + 1..])
  }

  /** The lines of a text, put back together, are the text. */
  lemma {:induction false} LinesConcat(text: string)
    ensures Join(Lines(text), "") == text
    decreases |text|
  {
    match IndexOf(text, '\n')
    case None =>
    case Some(i) =>
      var rest := text[i + 1..];
      LinesConcat(rest);
      if Lines(rest) == [] {
        assert rest == "";
        assert text[..i + 1] == text;
      } else {
        JoinCons(text[..i + 1], Lines(rest), "");
        assert text[..i + 1] + rest == text;
      }
  }

  /** Each line ends at its first `'\n'`; only the last line may lack one. */
  lemma {:induction false} LinesBreakAtEnd(text: string)
    ensures forall k :: 0 <= k < |Lines(text)| ==>
      '\n' !in Lines(text)[k][..|Lines(text)[k]| - 1]
    ensures forall k :: 0 <= k < |Lines(text)| - 1 ==>
      Lines(text)[k][|Lines(text)[k]| - 1] == '\n'
    decreases |text|
  {
    match IndexOf(text, '\n')
    case None =>
      if text != "" {
        assert forall j :: 0 <= j < |text[..|text| - 1]| ==> text[..|text| - 1][j] == text[j];
      }
    case Some(i) =>
      var head, rest := text[..i + 1], text[i + 1..];
      LinesBreakAtEnd(rest);
      assert head[..|head| - 1] == text[..i];
      assert forall j :: 0 <= j < i ==> text[..i][j] == text[j];
      assert Lines(text) == [head] + Lines(rest);
      forall k | 1 <= k < |Lines(text)| ensures Lines(text)[k] == Lines(rest)[k - 1] {
      }
  }

  /** `Lines` unfolded at the first `'\n'`, index `i`. */
  lemma LinesAtFirst(text: string, i: nat)
    requires IndexOf(text, '\n') == Some(i)
    ensures Lines(text) == [text[..i + 1]] + Lines(text[i + 1..])
  {
  }

  /** Slicing a concatenation within its left operand. */
  lemma AppendSlices(a: string, b: string, n: nat)
    requires n <= |a|
    ensures (a + b)[..n] == a[..n] && (a + b)[n..] == a[n..] + b
  {
  }

  /** Concatenation of sequences is associative. */
  lemma AppendAssoc<T>(x: seq<T>, y: seq<T>, z: seq<T>)
    ensures x + (y + z) == (x + y) + z
  {
  }

  /** The first line of `a + b` when it ends inside `a`, at index `i`. */
  lemma LinesAppendStep(a: string, b: string, i: nat)
    requires IndexOf(a, '\n') == Some(i)
    ensures Lines(a + b) == [a[..i + 1]] + Lines(a[i + 1..] + b)
  {
    IndexOfPrefix(a, b, '\n');
    LinesAtFirst(a + b, i);
    AppendSlices(a, b, i + 1);
  }

  /** Reading `a + b` line by line when `a` is made of whole lines. */
  lemma {:induction false} LinesAppend(a: string, b: string)
    requires a == "" || a[|a| - 1] == '\n'
    ensures Lines(a + b) == Lines(a) + Lines(b)
    decreases |a|
  {
    if a == "" {
      assert a + b == b;
    } else {
      var i := IndexOf(a, '\n').value;
      var rest := a[i + 1..];
      var x := [a[..i + 1]];
      assert Lines(a + b) == x + Lines(rest + b) by {
        LinesAppendStep(a, b, i);
      }
      assert Lines(a) == x + Lines(rest) by {
        LinesAtFirst(a, i);
      }
      assert Lines(rest + b) == Lines(rest) + Lines(b) by {
        assert rest == "" || rest[|rest| - 1] == a[|a| - 1];
        LinesAppend(rest, b);
      }
      AppendAssoc(x, Lines(rest), Lines(b));
    }
  }

  /** No line of a text contains `pat` when the text does not. */
  lemma {:induction false} LinesAvoid(text: string, pat: string)
    requires !Contains(text, pat)
    ensures forall k :: 0 <= k < |Lines(text)| ==> !Contains(Lines(text)[k], pat)
    decreases |text|
  {
    match IndexOf(text, '\n')
    case None =>
    case Some(i) =>
      SliceAvoids(text, pat, 0, i + 1);
      SliceAvoids(text, pat, i + 1, |text|);
      assert text[i + 1..|text|] == text[i + 1..];
      assert text[0..i + 1] == text[..i + 1];
      LinesAvoid(text[i + 1..], pat);
  }

  /** A text with a single `'\n'`, at its end, is one line. */
  lemma SingleLine(line: string)
    requires line != [] && line[|line| - 1] == '\n'
    requires '\n' !in line[..|line| - 1]
    ensures Lines(line) == [line]
  {
    var n := |line| - 1;
    forall j | 0 <= j < n ensures line[j] != '\n' {
      assert line[j] == line[..n][j];
    }
    IndexOfIs(line, '\n', n);
    assert line[..n + 1] == line;
  }

  /** Two whole lines followed by more text: the two lines, then the lines of the rest. */
  lemma LinesOfTwoLines(a: string, b: string, rest: string)
    requires a != "" && a[|a| - 1] == '\n' && Lines(a) == [a]
    requires b != "" && b[|b| - 1] == '\n' && Lines(b) == [b]
    ensures Lines(a + b + rest) == [a, b] + Lines(rest)
  {
    AppendAssoc(a, b, rest);
    LinesAppend(a, b + rest);
    LinesAppend(b, rest);
  }
}
