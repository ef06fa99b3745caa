/**
 * `get_modified_str`: the remote freshness signal read off a PROC CONTENTS
 * listing. The listing arrives as its lines (as `readlines` returns them);
 * the "Last Modified" line gives the date and the line right after it, when
 * it is not the "Protection" line, continues it.
 */
module ModifiedScanner {
  import opened Wrappers
  import opened Strings

  const LastModified := "Last Modified"

  /** The length of the run of whitespace a string starts with. */
  function SpaceRun(s: string): (n: nat)
    ensures n <= |s|
    ensures forall i :: 0 <= i < n ==> IsSpace(s[i])
    ensures n < |s| ==> !IsSpace(s[n])
  {
    if s != [] && IsSpace(s[0]) then 1 + SpaceRun(s[1..]) else 0
  }

  predicate DoubleSpaceAt(s: string, k: int)
  {
    0 <= k && k + 1 < |s| && IsSpace(s[k]) && IsSpace(s[k + 1])
  }

  /** The first position at or after `from` where two whitespace characters follow each other. */
  function DoubleSpaceFrom(s: string, from: nat): (k: Option<nat>)
    decreases |s| - from
    ensures k.Some? ==> from <= k.value && DoubleSpaceAt(s, k.value)
    ensures k.Some? ==> forall j :: from <= j < k.value ==> !DoubleSpaceAt(s, j)
    ensures k.None? ==> forall j :: from <= j ==> !DoubleSpaceAt(s, j)
  {
    if from + 1 >= |s| then None
    else if IsSpace(s[from]) && IsSpace(s[from + 1]) then Some(from)
    else DoubleSpaceFrom(s, from + 1)
  }

  /**
   * The substitution `^Last Modified\s+(.*?)\s{2,}.*$` -> `Last modified: \1`
   * followed by `rstrip`, on a line that starts with "Last Modified". The
   * value runs from the end of the whitespace after the label to the first
   * pair of whitespace characters. When there is no such pair the regular
   * expression backtracks into the whitespace after the label: with three
   * or more characters there it matches an empty value, otherwise it does not
   * match and the line is kept as it is.
   */
  function ModifiedValue(line: string): (r: string)
    requires StartsWith(line, LastModified)
    ensures r == [] || !IsSpace(r[|r| - 1])
  {
    var rest := line[|LastModified|..];
    var run := SpaceRun(rest);
    if run == 0 then RStrip(line)
    else
      match DoubleSpaceFrom(rest, run)
      case Some(k) =>
        assert k > run && !IsSpace(rest[k - 1]) by {
          if k - 1 >= run { assert !DoubleSpaceAt(rest, k - 1); }
        }
        "Last modified: " + rest[run..k]
      case None => if run >= 3 then "Last modified:" else RStrip(line)
  }

  /**
   * `^\s+(.*)\s+$` -> `\1` and then `\s+$` -> `` on the line after the
   * header: both ends are trimmed when the line starts and ends with
   * whitespace, otherwise only the end.
   */
  function TrimFollowing(line: string): string
  {
    if |line| >= 2 && IsSpace(line[0]) && IsSpace(line[|line| - 1]) then Strip(line) else RStrip(line)
  }

  /** The trim never lengthens the line and leaves no whitespace at its end. */
  lemma TrimFollowingShape(line: string)
    ensures var t := TrimFollowing(line);
            |t| <= |line| && (t == [] || !IsSpace(t[|t| - 1]))
  {
  }

  /** The loop's variables: the text found so far and whether the next line continues it. */
  datatype ScanState = ScanState(modified: string, nextRow: bool)

  const Start := ScanState("", false)

  /** One turn of the loop. The header test is made on the line after it has been trimmed. */
  function Step(s: ScanState, line: string): (r: ScanState)
    ensures !s.nextRow ==> (r.nextRow <==> StartsWith(line, LastModified))
    ensures !s.nextRow && !StartsWith(line, LastModified) ==> r == s
    ensures s.nextRow ==> (r.nextRow <==> StartsWith(TrimFollowing(line), LastModified))
  {
    var line' := if s.nextRow then TrimFollowing(line) else line;
    var modified := if s.nextRow && !Contains(line', "Protection") then s.modified + " " + RStrip(line') else s.modified;
    if StartsWith(line', LastModified) then ScanState(ModifiedValue(line'), true)
    else ScanState(modified, false)
  }

  /** The loop's variables after the given lines. */
  function StateAfter(lines: seq<string>): ScanState
  {
    if lines == [] then Start else Step(StateAfter(lines[..|lines| - 1]), lines[|lines| - 1])
  }

  /** `get_modified_str` once the listing has been read. */
  method GetModifiedStr(contents: seq<string>) returns (modified: string)
    ensures modified == StateAfter(contents).modified
  {
    modified := "";
    var nextRow := false;
    for i := 0 to |contents|
      invariant ScanState(modified, nextRow) == StateAfter(contents[..i])
    {
      var line := contents[i];
      if nextRow {
        line := TrimFollowing(line);
        if !Contains(line, "Protection") {
          modified := modified + " " + RStrip(line);
        }
        nextRow := false;
      }
      if StartsWith(line, LastModified) {
        modified := ModifiedValue(line);
        nextRow := true;
      }
      assert contents[..i + 1][..i] == contents[..i];
    }
    assert contents[..|contents|] == contents;
  }

  /** Without a "Last Modified" line the signal is empty. */
  lemma {:induction false} NoHeaderNoSignal(lines: seq<string>)
    requires forall i :: 0 <= i < |lines| ==> !StartsWith(lines[i], LastModified)
    ensures StateAfter(lines) == Start
  {
    if lines != [] {
      NoHeaderNoSignal(lines[..|lines| - 1]);
    }
  }

  /** A header reached by a trim was already a header after its leading whitespace. */
  lemma TrimmedHeader(l: string)
    requires StartsWith(TrimFollowing(l), LastModified)
    ensures StartsWith(LStrip(l), LastModified)
  {
    if |l| >= 2 && IsSpace(l[0]) && IsSpace(l[|l| - 1]) {
      PrefixOfPrefix(LStrip(l), RStrip(LStrip(l)), LastModified);
    } else {
      PrefixOfPrefix(l, RStrip(l), LastModified);
      HeaderUnstripped(l);
    }
  }

  /** A header survives the trim applied to the line after another header. */
  lemma HeaderSurvivesTrim(h: string)
    requires StartsWith(h, LastModified)
    ensures StartsWith(TrimFollowing(h), LastModified)
  {
    assert !IsSpace(h[0]) && !IsSpace(h[|LastModified| - 1]);
    var t := RStrip(h);
    assert |t| >= |LastModified|;
    assert t[..|LastModified|] == h[..|LastModified|];
  }

  /** Reading a header forgets the text gathered before it. */
  lemma HeaderResets(s1: ScanState, s2: ScanState, h: string)
    requires s1.nextRow == s2.nextRow && StartsWith(h, LastModified)
    ensures Step(s1, h) == Step(s2, h)
    ensures Step(s1, h).nextRow
  {
    if s1.nextRow {
      HeaderSurvivesTrim(h);
    }
  }

  /** The value a header line yields, given whether it was itself trimmed as a continuation. */
  function HeaderValue(h: string, trimmed: bool): string
    requires StartsWith(h, LastModified)
  {
    HeaderSurvivesTrim(h);
    if trimmed then ModifiedValue(TrimFollowing(h)) else ModifiedValue(h)
  }

  /** The header's value with the line after it appended, unless that line is the "Protection" line. */
  function WithContinuation(value: string, post: seq<string>): string
  {
    if post == [] then value
    else
      var t := TrimFollowing(post[0]);
      if Contains(t, "Protection") then value else value + " " + RStrip(t)
  }

  /** The line without its leading whitespace. */
  function DropSpaces(l: string): string
  {
    if l != [] && IsSpace(l[0]) then DropSpaces(l[1..]) else l
  }

  lemma {:induction false} DropSpacesIsLStrip(l: string)
    ensures DropSpaces(l) == LStrip(l)
  {
    if l != [] && IsSpace(l[0]) {
      DropSpacesIsLStrip(l[1..]);
    }
  }

  /** Whether a line, once its leading whitespace is gone, starts with the label. */
  predicate OpensRecord(l: string)
  {
    StartsWith(DropSpaces(l), LastModified)
  }

  /** The state right after a header line. */
  lemma AfterHeader(pre: seq<string>, h: string)
    requires StartsWith(h, LastModified)
    ensures StateAfter(pre + [h]) == ScanState(HeaderValue(h, StateAfter(pre).nextRow), true)
  {
    assert (pre + [h])[..|pre + [h]| - 1] == pre;
    HeaderSurvivesTrim(h);
  }

  /** The line after a header is trimmed and appended unless it is the "Protection" line. */
  lemma ContinuationStep(v: string, f: string)
    requires !OpensRecord(f)
    ensures Step(ScanState(v, true), f) == ScanState(WithContinuation(v, [f]), false)
  {
    DropSpacesIsLStrip(f);
    if StartsWith(TrimFollowing(f), LastModified) {
      TrimmedHeader(f);
    }
  }

  /** A line that starts with the label has no leading whitespace to strip. */
  lemma HeaderUnstripped(l: string)
    ensures StartsWith(l, LastModified) ==> StartsWith(LStrip(l), LastModified)
  {
    if StartsWith(l, LastModified) {
      assert l[0] == 'L';
    }
  }

  /** Any other line leaves the state alone. */
  lemma QuietStep(s: ScanState, l: string)
    requires !s.nextRow && !OpensRecord(l)
    ensures Step(s, l) == s
  {
    DropSpacesIsLStrip(l);
    HeaderUnstripped(l);
  }

  /**
   * The last header wins: whatever came before it, the signal is that
   * header's value plus at most the one line after it.
   */
  lemma {:induction false} LastHeaderWins(pre: seq<string>, h: string, post: seq<string>)
    requires StartsWith(h, LastModified)
    requires forall i :: 0 <= i < |post| ==> !OpensRecord(post[i])
    ensures StateAfter(pre + [h] + post) == ScanState(WithContinuation(HeaderValue(h, StateAfter(pre).nextRow), post), post == [])
  {
    if post == [] {
      AfterHeader(pre, h);
      assert pre + [h] + post == pre + [h];
    } else {
      var init, last := post[..|post| - 1], post[|post| - 1];
      assert post == init + [last];
      LastHeaderWins(pre, h, init);
      LastLineStep(pre + [h], init, last, HeaderValue(h, StateAfter(pre).nextRow));
      assert pre + [h] + post == (pre + [h] + init) + [last];
    }
  }

  /** The inductive step of `LastHeaderWins`: one more line after the header's continuation. */
  lemma LastLineStep(head: seq<string>, init: seq<string>, last: string, v: string)
    requires StateAfter(head + init) == ScanState(WithContinuation(v, init), init == [])
    requires !OpensRecord(last)
    ensures StateAfter(head + init + [last]) == ScanState(WithContinuation(v, init + [last]), false)
  {
    var all := head + init + [last];
    assert all[..|all| - 1] == head + init;
    if init == [] {
      ContinuationStep(v, last);
      assert init + [last] == [last];
    } else {
      QuietStep(StateAfter(head + init), last);
      assert (init + [last])[0] == init[0];
    }
  }

  /**
   * A value written after the label and its padding, and followed by two or
   * more whitespace characters, is read back exactly.
   */
  lemma ValueRoundTrip(pad: string, value: string, gap: string, tail: string)
    requires |pad| >= 1 && forall i :: 0 <= i < |pad| ==> IsSpace(pad[i])
    requires value != [] && !IsSpace(value[0]) && !IsSpace(value[|value| - 1])
    requires forall i :: 0 <= i < |value| - 1 ==> !DoubleSpaceAt(value, i)
    requires |gap| >= 2 && IsSpace(gap[0]) && IsSpace(gap[1])
    ensures StartsWith(LastModified + pad + value + gap + tail, LastModified)
    ensures ModifiedValue(LastModified + pad + value + gap + tail) == "Last modified: " + value
  {
    var line := LastModified + pad + value + gap + tail;
    assert line[..|LastModified|] == LastModified;
    var rest := line[|LastModified|..];
    assert rest == pad + value + gap + tail;
    var run := SpaceRun(rest);
    assert rest[|pad|] == value[0];
    assert run == |pad|;
    var end := |pad| + |value|;
    assert DoubleSpaceAt(rest, end) by {
      assert rest[end] == gap[0] && rest[end + 1] == gap[1];
    }
    assert forall j :: run <= j < end ==> !DoubleSpaceAt(rest, j) by {
      forall j | run <= j < end ensures !DoubleSpaceAt(rest, j) {
        if j < end - 1 {
          assert !DoubleSpaceAt(value, j - run);
          assert rest[j] == value[j - run] && rest[j + 1] == value[j - run + 1];
        } else {
          assert rest[j] == value[|value| - 1];
        }
      }
    }
    var k := DoubleSpaceFrom(rest, run);
    assert k == Some(end);
    assert rest[run..end] == value;
  }
}
