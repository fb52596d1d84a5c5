/**
 * The scan of the save file in `create` (challenge_generator.py, lines
 * 59-69): every line that carries both markers overwrites the payload with
 * the text after its first `[data]`, up to the next marker; an absent or
 * empty payload raises.
 */
module Payload {
  import opened Common
  import opened Strings

  const Open: string := "[data]"
  const Close: string := "[/data]"

  /** Neither marker starts with a character that recurs inside it. */
  lemma MarkersLeadUnique()
    ensures LeadUnique(Open) && LeadUnique(Close)
    ensures Open[0] == Close[0] == '[' && Open[1] == 'd' && Close[1] == '/'
  {
  }

  /** The guard `'[data]' in line and '[/data]' in line`. */
  predicate Matches(line: string)
    ensures Matches(line) ==> |line| >= |Close|
  {
    Contains(line, Open) && Contains(line, Close)
  }

  /** The guard holds exactly when the searches `split` performs for both markers succeed. */
  lemma MatchesIffFound(line: string)
    ensures Matches(line) <==> Find(line, Open).Some? && Find(line, Close).Some?
  {
    FindIffContains(line, Open);
    FindIffContains(line, Close);
  }

  /** Position `e` of `line` is its end or the start of a marker. */
  predicate EndsAtMarker(line: string, e: int)
  {
    e == |line| || OccursAt(line, Open, e) || OccursAt(line, Close, e)
  }

  /**
   * Cutting `line` at `start`: `h1` runs up to an `Open` or the end of the
   * line, `h2` is a prefix of `h1` that runs up to a `Close` or the end of `h1`.
   */
  lemma CutEnds(line: string, start: nat, h1: string, h2: string)
    requires start + |h1| <= |line| && h1 == line[start..start + |h1|]
    requires |h2| <= |h1| && h2 == h1[..|h2|]
    requires start + |h1| == |line| || OccursAt(line[start..], Open, |h1|)
    requires |h2| == |h1| || OccursAt(h1, Close, |h2|)
    ensures OccursAt(line, h2, start)
    ensures EndsAtMarker(line, start + |h2|)
  {
    assert h2 == line[start..start + |h2|];
    if |h2| < |h1| {
      OccursInSlice(line, Close, start, start + |h1|, |h2|);
    } else if start + |h1| < |line| {
      assert line[start..] == line[start..|line|];
      OccursInSlice(line, Open, start, |line|, |h1|);
    }
  }

  /**
   * Facts about cutting `line` after an `Open` at `i`: take the text up to
   * the next `Open`, then the text of that up to the first `Close`.
   */
  lemma CutBetweenMarkers(line: string, i: nat, h1: string, h2: string)
    requires i + |Open| <= |line|
    requires h1 == FirstPiece(line[i + |Open|..], Open)
    requires h2 == FirstPiece(h1, Close)
    ensures OccursAt(line, h2, i + |Open|)
    ensures EndsAtMarker(line, i + |Open| + |h2|)
  {
    var start := i + |Open|;
    FirstPieceSpec(line[start..], Open);
    FirstPieceSpec(h1, Close);
    assert h1 == line[start..start + |h1|];
    CutEnds(line, start, h1, h2);
  }

  /**
   * `line.split('[data]')[1].split('[/data]')[0]` (lines 64-65); the cut
   * contains neither marker.
   */
  function Extract(line: string): (r: string)
    requires Matches(line)
    ensures !Contains(r, Open) && !Contains(r, Close)
  {
    FindIffContains(line, Open);
    var h1 := SecondPiece(line, Open);
    FirstPieceSpec(line[Find(line, Open).value + |Open|..], Open);
    FirstPieceSpec(h1, Close);
    PrefixAvoids(h1, Open, |FirstPiece(h1, Close)|);
    FirstPiece(h1, Close)
  }

  /** `Extract` spelled out. */
  lemma ExtractUnfold(line: string)
    requires Matches(line)
    ensures Find(line, Open).Some? && Extract(line) == FirstPiece(SecondPiece(line, Open), Close)
  {
    FindIffContains(line, Open);
  }

  /** `Extract` is the expression of lines 64-65 over Python's `split`. */
  lemma ExtractIsSplit(line: string)
    requires Matches(line)
    ensures |Split(line, Open)| >= 2
    ensures Extract(line) == Split(Split(line, Open)[1], Close)[0]
  {
    FindIffContains(line, Open);
    SecondPieceIsSecond(line, Open);
    FirstPieceIsHead(SecondPiece(line, Open), Close);
  }

  /**
   * Where the cut of `Extract` lies: right after the first `[data]`, running
   * up to the next marker of either kind or the end of the line.
   */
  lemma ExtractIsCut(line: string)
    requires Matches(line)
    ensures Find(line, Open).Some?
    ensures OccursAt(line, Extract(line), Find(line, Open).value + |Open|)
    ensures EndsAtMarker(line, Find(line, Open).value + |Open| + |Extract(line)|)
  {
    FindIffContains(line, Open);
    CutBetweenMarkers(line, Find(line, Open).value, SecondPiece(line, Open), Extract(line));
  }

  /** In `x + Close + q`, with no `Open` in `x`, no `Open` starts before the end of that `Close`. */
  lemma OpenNotBeforeClose(x: string, q: string)
    requires !Contains(x, Open)
    ensures forall j :: 0 <= j < |x| + |Close| ==> !OccursAt(x + Close + q, Open, j)
  {
    MarkersLeadUnique();
    var rest := x + Close + q;
    assert rest == x + (Close + q);
    NoOccurrenceStartsIn(x, Close + q, Open);
    forall j | |x| <= j < |x| + |Close|
      ensures !OccursAt(rest, Open, j)
    {
      if j + |Open| <= |rest| {
        if j == |x| {
          assert rest[j..j + |Open|][1] == Close[1];
        } else {
          assert rest[j..j + |Open|][0] == Close[j - |x|];
        }
      }
    }
  }

  /** The cut of `x + "[/data]" + q` up to the next `[data]`, then up to the first `[/data]`, is `x`. */
  lemma CutBeforeClose(x: string, q: string)
    requires !Contains(x, Open) && !Contains(x, Close)
    ensures FirstPiece(FirstPiece(x + Close + q, Open), Close) == x
  {
    MarkersLeadUnique();
    var rest := x + Close + q;
    OpenNotBeforeClose(x, q);
    var h1 := FirstPiece(rest, Open);
    FirstPieceSpec(rest, Open);
    var n := |x| + |Close|;
    assert n <= |h1|;
    assert h1 == x + (Close + rest[n..|h1|]);
    FindAtBoundary(x, Close + rest[n..|h1|], Close);
    assert h1[..|x|] == x;
  }

  /**
   * A line `p + "[data]" + x + "[/data]" + q`, where `p` has no `[data]` and
   * `x` neither marker, yields exactly `x`, whatever `q` holds.
   */
  lemma ExtractExact(p: string, x: string, q: string)
    requires !Contains(p, Open) && !Contains(x, Open) && !Contains(x, Close)
    ensures Matches(p + (Open + x + Close) + q)
    ensures Extract(p + (Open + x + Close) + q) == x
  {
    var line := p + (Open + x + Close) + q;
    var rest := x + Close + q;
    assert line == p + (Open + rest) && line == (p + Open) + rest && line == (p + Open + x) + (Close + q);
    assert Find(line, Open) == Some(|p|) by {
      MarkersLeadUnique();
      FindAtBoundary(p, Open + rest, Open);
    }
    assert Contains(line, Close) by {
      OccursAtJoint(p + Open + x, Close + q, Close);
    }
    ExtractAfterFirstOpen(line, |p|);
    DropPrefix(p + Open, rest);
    CutBeforeClose(x, q);
  }

  /** `u + v` with `u` dropped is `v`. */
  lemma DropPrefix(u: string, v: string)
    ensures (u + v)[|u|..] == v
  {
  }

  /** `Extract` of a line whose first `[data]` is at `i` and which has a `[/data]`. */
  lemma ExtractAfterFirstOpen(line: string, i: nat)
    requires Find(line, Open) == Some(i) && Contains(line, Close)
    ensures Matches(line)
    ensures Extract(line) == FirstPiece(FirstPiece(line[i + |Open|..], Open), Close)
  {
    FindIffContains(line, Open);
    SecondPieceAt(line, Open, i);
  }

  /** `lines[k]` passes the guard and no later line does. */
  predicate LastAt(lines: seq<string>, k: int)
  {
    0 <= k < |lines| && Matches(lines[k]) &&
    forall m :: k < m < |lines| ==> !Matches(lines[m])
  }

  /** The index of the last of the first `n` lines that passes the guard, if any. */
  function LastMatchBefore(lines: seq<string>, n: nat): (r: Option<nat>)
    requires n <= |lines|
    ensures r.Some? ==> r.value < n && Matches(lines[r.value])
    ensures r.Some? ==> forall m :: r.value < m < n ==> !Matches(lines[m])
    ensures r.None? ==> forall m :: 0 <= m < n ==> !Matches(lines[m])
  {
    if n == 0 then None
    else if Matches(lines[n - 1]) then Some(n - 1)
    else LastMatchBefore(lines, n - 1)
  }

  /** The index of the last line that passes the guard, if any. */
  function LastMatch(lines: seq<string>): (r: Option<nat>)
    ensures r.Some? ==> LastAt(lines, r.value)
    ensures r.None? <==> forall k :: 0 <= k < |lines| ==> !Matches(lines[k])
  {
    LastMatchBefore(lines, |lines|)
  }

  /** `LastMatch` finds the last line that passes the guard. */
  lemma LastMatchIs(lines: seq<string>, k: int)
    requires LastAt(lines, k)
    ensures LastMatch(lines) == Some(k)
  {
  }

  /** The last match of `a` stays the last one when lines that fail the guard follow. */
  lemma LastAtPrefix(a: seq<string>, b: seq<string>, k: int)
    requires LastAt(a, k)
    requires forall m :: 0 <= m < |b| ==> !Matches(b[m])
    ensures LastAt(a + b, k)
  {
    var ab := a + b;
    assert ab[k] == a[k];
    forall m | k < m < |ab| ensures !Matches(ab[m]) {
      if m < |a| {
        assert ab[m] == a[m];
      } else {
        assert ab[m] == b[m - |a|];
      }
    }
  }

  /** No line of `a + b` passes the guard when none of `a` and none of `b` does. */
  lemma NoneAppend(a: seq<string>, b: seq<string>)
    requires forall m :: 0 <= m < |a| ==> !Matches(a[m])
    requires forall m :: 0 <= m < |b| ==> !Matches(b[m])
    ensures forall m :: 0 <= m < |a + b| ==> !Matches((a + b)[m])
  {
    forall m | 0 <= m < |a + b| ensures !Matches((a + b)[m]) {
      if m < |a| {
        assert (a + b)[m] == a[m];
      } else {
        assert (a + b)[m] == b[m - |a|];
      }
    }
  }

  /** The last match of `b` is the last one of `a + b`. */
  lemma LastAtSuffix(a: seq<string>, b: seq<string>, k: int)
    requires LastAt(b, k)
    ensures LastAt(a + b, |a| + k)
  {
    var ab := a + b;
    assert ab[|a| + k] == b[k];
    forall m | |a| + k < m < |ab| ensures !Matches(ab[m]) {
      assert ab[m] == b[m - |a|];
    }
  }

  /** Lines that fail the guard, appended, leave the last match where it was. */
  lemma LastMatchAppendNone(a: seq<string>, b: seq<string>)
    requires forall m :: 0 <= m < |b| ==> !Matches(b[m])
    ensures LastMatch(a + b) == LastMatch(a)
  {
    match LastMatch(a)
    case None =>
      NoneAppend(a, b);
    case Some(k) =>
      LastAtPrefix(a, b, k);
      LastMatchIs(a + b, k);
  }

  /** The last match of `a + b` is that of `b` when `b` has one. */
  lemma LastMatchInSuffix(a: seq<string>, b: seq<string>)
    requires LastMatch(b).Some?
    ensures LastMatch(a + b) == Some(|a| + LastMatch(b).value)
  {
    LastAtSuffix(a, b, LastMatch(b).value);
    LastMatchIs(a + b, |a| + LastMatch(b).value);
  }

  /**
   * The value of `data` after the loop at lines 60-65 has seen `lines`: the
   * cut of the last line that passes the guard, `None` when no line does.
   */
  function LastPayload(lines: seq<string>): (r: Option<string>)
    ensures r.Some? ==> !Contains(r.value, Open) && !Contains(r.value, Close)
    ensures r.None? <==> forall k :: 0 <= k < |lines| ==> !Matches(lines[k])
  {
    match LastMatch(lines)
    case None => None
    case Some(k) => Some(Extract(lines[k]))
  }

  /** One more line either overwrites the payload, when it passes the guard, or leaves it as it was. */
  lemma LastPayloadStep(lines: seq<string>, i: nat)
    requires i < |lines|
    ensures LastPayload(lines[..i + 1]) ==
      if Matches(lines[i]) then Some(Extract(lines[i])) else LastPayload(lines[..i])
  {
    var a, b := lines[..i], [lines[i]];
    assert lines[..i + 1] == a + b;
    if Matches(lines[i]) {
      assert (a + b)[i] == lines[i];
      LastMatchWins(a + b, i);
    } else {
      AppendNoMatch(a, b);
    }
  }

  /** The payload is that of the last line that passes the guard; earlier matches have no effect. */
  lemma LastMatchWins(lines: seq<string>, k: int)
    requires LastAt(lines, k)
    ensures LastPayload(lines) == Some(Extract(lines[k]))
  {
    LastMatchIs(lines, k);
  }

  /** A payload, when there is one, comes from the last line that passes the guard. */
  lemma PayloadHasSource(lines: seq<string>)
    requires LastPayload(lines).Some?
    ensures exists k :: LastAt(lines, k) && LastPayload(lines).value == Extract(lines[k])
  {
    var k := LastMatch(lines).value;
    assert LastAt(lines, k);
  }

  /** Lines after the scanned ones that fail the guard leave the payload unchanged. */
  lemma AppendNoMatch(a: seq<string>, b: seq<string>)
    requires forall k :: 0 <= k < |b| ==> !Matches(b[k])
    ensures LastPayload(a + b) == LastPayload(a)
  {
    LastMatchAppendNone(a, b);
    var m := LastMatch(a);
    if m.Some? {
      assert (a + b)[m.value] == a[m.value];
    }
  }

  /** Once a later block of lines has a match, what came before has no effect. */
  lemma AppendWithMatch(a: seq<string>, b: seq<string>)
    requires exists k :: 0 <= k < |b| && Matches(b[k])
    ensures LastPayload(a + b) == LastPayload(b)
  {
    LastMatchInSuffix(a, b);
    var k := LastMatch(b).value;
    assert (a + b)[|a| + k] == b[k];
  }

  /** The check `if not data` at line 68: `None` and `""` both raise. */
  function PayloadOf(lines: seq<string>): (r: Result<string, Error>)
    ensures r.Success? ==> r.value != "" && !Contains(r.value, Open) && !Contains(r.value, Close)
    ensures r.Failure? ==> r.error == CouldNotGetData
  {
    match LastPayload(lines)
    case None => Failure(CouldNotGetData)
    case Some(d) => if d == "" then Failure(CouldNotGetData) else Success(d)
  }

  /**
   * The scan raises exactly when no line passes the guard or the last one
   * that does yields an empty payload, whatever earlier lines yielded.
   */
  lemma PayloadFailsExactly(lines: seq<string>)
    ensures PayloadOf(lines).Failure? <==>
      (forall k :: 0 <= k < |lines| ==> !Matches(lines[k])) ||
      (exists k :: LastAt(lines, k) && Extract(lines[k]) == "")
  {
    if LastPayload(lines).Some? {
      PayloadHasSource(lines);
      forall k | LastAt(lines, k)
        ensures LastPayload(lines) == Some(Extract(lines[k]))
      {
        LastMatchWins(lines, k);
      }
    }
  }

  /** With a non-empty payload on the last matching line, that payload is the result. */
  lemma PayloadIsLastMatch(lines: seq<string>, k: int)
    requires LastAt(lines, k) && Extract(lines[k]) != ""
    ensures PayloadOf(lines) == Success(Extract(lines[k]))
  {
    LastMatchWins(lines, k);
  }

  /** A later line `[data][/data]` discards an earlier non-empty payload and makes the scan raise. */
  lemma EmptyLastPayloadRaises(x: string)
    requires x != "" && !Contains(x, Open) && !Contains(x, Close)
    ensures PayloadOf([Open + x + Close]) == Success(x)
    ensures PayloadOf([Open + x + Close, Open + Close]) == Failure(CouldNotGetData)
  {
    var full, empty := Open + x + Close, Open + Close;
    assert Matches(full) && Extract(full) == x by {
      ExtractBetween(x);
    }
    assert Matches(empty) && Extract(empty) == "" by {
      ExtractBetween("");
      assert Open + "" + Close == empty;
    }
    PayloadIsLastMatch([full], 0);
    LastMatchWins([full, empty], 1);
  }

  /** A line that is just `[data]`, `x`, `[/data]` yields `x`. */
  lemma ExtractBetween(x: string)
    requires !Contains(x, Open) && !Contains(x, Close)
    ensures Matches(Open + x + Close) && Extract(Open + x + Close) == x
  {
    var m := Open + x + Close;
    ExtractExact("", x, "");
    assert "" + m + "" == m;
  }


  /**
   * The loop at lines 59-69 over the lines of the save file: `data` is
   * overwritten at every line that passes the guard, then tested for
   * falsity.
   */
  method ReadPayload(lines: seq<string>) returns (r: Result<string, Error>)
    ensures r == PayloadOf(lines)
  {
    var data: Option<string> := None;
    var i := 0;
    while i < |lines|
      invariant 0 <= i <= |lines|
      invariant data == LastPayload(lines[..i])
    {
      var line := lines[i];
      LastPayloadStep(lines, i);
      if Contains(line, Open) && Contains(line, Close) {
        data := Some(Extract(line));
      }
      i := i + 1;
    }
    assert lines[..|lines|] == lines;
    if data.None? || data.value == "" {
      r := Failure(CouldNotGetData);
    } else {
      r := Success(data.value);
    }
  }

  /**
   * A text whose one line with both markers is `line`, after some whole lines
   * `head` and before lines without a match, yields the payload of `line`.
   */
  lemma PayloadOfLineBetween(head: string, line: string, tail: string)
    requires head == "" || head[|head| - 1] == '\n'
    requires line != "" && line[|line| - 1] == '\n' && Lines(line) == [line]
    requires Matches(line) && Extract(line) != ""
    requires forall k :: 0 <= k < |Lines(tail)| ==> !Matches(Lines(tail)[k])
    ensures PayloadOf(Lines(head + line + tail)) == Success(Extract(line))
  {
    AppendAssoc(head, line, tail);
    LinesAppend(head, line + tail);
    LinesAppend(line, tail);
    var after := [line] + Lines(tail);
    assert LastAt(after, 0) by {
      forall m | 0 < m < |after| ensures !Matches(after[m]) {
        assert after[m] == Lines(tail)[m - 1];
      }
    }
    LastAtSuffix(Lines(head), after, 0);
    PayloadIsLastMatch(Lines(head) + after, |Lines(head)|);
  }
}
