/**
 * The textual rewrite the executor applies to a caller's script before it is
 * evaluated in the page: every `setInterval(` call gets the script-specific
 * assignment `window.scriptInterval_<id> = ` in front of it, and every
 * `new MutationObserver(` gets `window.scriptObserver_<id> = `.
 *
 * A JavaScript `String.prototype.replace` with a global regular expression
 * scans left to right and replaces non-overlapping matches; `InsertBefore`
 * is that scan. Its inverse `Strip` deletes a marker wherever the marker is
 * immediately followed by the pattern.
 */
module ScriptRewrite {
  import opened Base

  /** The character `c` occurs in `v` exactly once, as its last character. */
  predicate ClosedBy(v: seq<char>, c: char) {
    |v| > 0 && v[|v| - 1] == c && forall i :: 0 <= i < |v| - 1 ==> v[i] != c
  }

  /**
   * The last character of the pattern (its closer) occurs in `mark + pat`
   * only at the very end, and the marker is not empty. Both rewrites of the
   * executor have this shape: the closer is `(`.
   */
  predicate Delimited(mark: seq<char>, pat: seq<char>) {
    |pat| > 0 && |mark| > 0 && ClosedBy(mark + pat, pat[|pat| - 1])
  }

  /** Neither pattern is a suffix of the other. */
  predicate Unrelated(p: seq<char>, q: seq<char>) {
    !EndsWith(p, q) && !EndsWith(q, p)
  }

  /**
   * Global replacement of `pat` by `mark + pat`: leftmost matches first,
   * scanning resumes after each match.
   */
  function InsertBefore(s: seq<char>, pat: seq<char>, mark: seq<char>): (r: seq<char>)
    requires |pat| > 0
    ensures |r| >= |s|
    ensures |mark| == 0 ==> r == s
    decreases |s|
  {
    if |s| == 0 then []
    else if StartsWith(s, pat) then
      var rest := InsertBefore(s[|pat|..], pat, mark);
      assert s == pat + s[|pat|..];
      mark + pat + rest
    else
      assert s == [s[0]] + s[1..];
      [s[0]] + InsertBefore(s[1..], pat, mark)
  }

  /** Deletes every `mark` that is immediately followed by `pat`. */
  function Strip(t: seq<char>, pat: seq<char>, mark: seq<char>): seq<char>
    requires |pat| > 0
    decreases |t|
  {
    if |t| == 0 then []
    else if StartsWith(t, mark + pat) then pat + Strip(t[|mark + pat|..], pat, mark)
    else [t[0]] + Strip(t[1..], pat, mark)
  }

  /** Number of positions of `s` at which `p` occurs. */
  function Occurrences(s: seq<char>, p: seq<char>): nat
    decreases |s|
  {
    if |s| == 0 then 0
    else (if StartsWith(s, p) then 1 else 0) + Occurrences(s[1..], p)
  }

  // ---------------------------------------------------------------------
  // Counting helpers

  /** Positions that hold no occurrence can be skipped. */
  lemma {:induction false} OccurrencesDrop(s: seq<char>, p: seq<char>, k: nat)
    requires k <= |s|
    requires forall i :: 0 <= i < k ==> !StartsWith(s[i..], p)
    ensures Occurrences(s, p) == Occurrences(s[k..], p)
  {
    if k > 0 {
      assert !StartsWith(s[0..], p);
      assert s[0..] == s;
      forall i | 0 <= i < k - 1 ensures !StartsWith(s[1..][i..], p) {
        assert s[1..][i..] == s[i + 1..];
      }
      OccurrencesDrop(s[1..], p, k - 1);
      assert s[1..][k - 1..] == s[k..];
    }
  }

  /**
   * In `p + y`, an occurrence of `q` that starts inside `p` must end at the
   * closer of `p`, so it exists exactly when `q` is a suffix of `p`.
   */
  lemma MatchInsideBlock(p: seq<char>, q: seq<char>, y: seq<char>, c: char, i: nat)
    requires ClosedBy(p, c) && ClosedBy(q, c)
    requires i < |p|
    requires StartsWith((p + y)[i..], q)
    ensures i + |q| == |p| && p[i..] == q
  {
    var t := p + y;
    assert t[i + |q| - 1] == c;
    assert i + |q| >= |p|;
    assert q[|p| - 1 - i] == t[|p| - 1];
    assert t[i..i + |q|] == p[i..];
  }

  /** A block closed by `c` contributes one occurrence of `q` when it ends with `q`. */
  lemma {:induction false} OccurrencesAfterBlock(p: seq<char>, q: seq<char>, y: seq<char>, c: char)
    requires ClosedBy(p, c) && ClosedBy(q, c)
    requires p == q || Unrelated(p, q)
    ensures Occurrences(p + y, q) == (if p == q then 1 else 0) + Occurrences(y, q)
  {
    var t := p + y;
    forall j | 0 <= j < |p| - 1 ensures !StartsWith(t[1..][j..], q) {
      assert t[1..][j..] == t[j + 1..];
      if StartsWith(t[j + 1..], q) {
        MatchInsideBlock(p, q, y, c, j + 1);
      }
    }
    OccurrencesDrop(t[1..], q, |p| - 1);
    assert t[1..][|p| - 1..] == y;
    if p == q {
      assert StartsWith(t, q);
    } else if StartsWith(t, q) {
      MatchInsideBlock(p, q, y, c, 0);
    }
  }

  // ---------------------------------------------------------------------
  // Prefixes of a rewritten text

  /** A prefix of `w + y` closed by the same character as `w` is `w` itself. */
  lemma PrefixOfBlock(w: seq<char>, y: seq<char>, v: seq<char>, c: char)
    requires ClosedBy(w, c) && ClosedBy(v, c)
    requires StartsWith(w + y, v)
    ensures v == w
  {
    var t := w + y;
    var k := |w| - 1;
    if k < |v| {
      assert v[k] == t[k] == w[k];
    }
    assert |v| <= |w|;
    assert v[|v| - 1] == t[|v| - 1] == w[|v| - 1];
    assert v == t[..|w|] == w;
  }

  /**
   * A prefix `v` of the rewritten text that contains the closer only at its
   * end is either a prefix of the original text with no match of `pat`
   * starting inside it, or ends with the first inserted `mark + pat`.
   */
  lemma {:induction false} RewritePrefix(s: seq<char>, pat: seq<char>, mark: seq<char>, v: seq<char>)
    requires Delimited(mark, pat)
    requires ClosedBy(v, pat[|pat| - 1])
    requires StartsWith(InsertBefore(s, pat, mark), v)
    ensures
      || (StartsWith(s, v) && forall i :: 0 <= i < |v| ==> !StartsWith(s[i..], pat))
      || (|mark + pat| <= |v| <= |s| + |mark + pat| && v == s[..|v| - |mark + pat|] + mark + pat
          && StartsWith(s[|v| - |mark + pat|..], pat))
    decreases |s|
  {
    var c := pat[|pat| - 1];
    var w := mark + pat;
    if |s| == 0 {
    } else if StartsWith(s, pat) {
      var t := InsertBefore(s, pat, mark);
      assert t == w + InsertBefore(s[|pat|..], pat, mark);
      PrefixOfBlock(w, InsertBefore(s[|pat|..], pat, mark), v, c);
      assert s[..0] + mark + pat == w;
      assert s[0..] == s;
    } else if |v| == 1 {
      assert InsertBefore(s, pat, mark) == [s[0]] + InsertBefore(s[1..], pat, mark);
      assert v == [s[0]];
      assert s[0..] == s;
      forall i | 0 <= i < 1 ensures !StartsWith(s[i..], pat) {}
    } else {
      var v' := v[1..];
      PrefixTail(s, pat, mark, v);
      RewritePrefix(s[1..], pat, mark, v');
      if StartsWith(s[1..], v') && forall i :: 0 <= i < |v'| ==> !StartsWith(s[1..][i..], pat) {
        ExtendPlainPrefix(s, pat, v');
      } else {
        ExtendMarkedPrefix(s, pat, mark, v');
      }
    }
  }

  /** Away from a match, dropping the first character of both texts keeps `v[1..]` a closed prefix. */
  lemma PrefixTail(s: seq<char>, pat: seq<char>, mark: seq<char>, v: seq<char>)
    requires |pat| > 0 && |s| > 0 && !StartsWith(s, pat)
    requires |v| > 1 && ClosedBy(v, pat[|pat| - 1])
    requires StartsWith(InsertBefore(s, pat, mark), v)
    ensures ClosedBy(v[1..], pat[|pat| - 1])
    ensures StartsWith(InsertBefore(s[1..], pat, mark), v[1..])
    ensures v == [s[0]] + v[1..]
  {
    var t := InsertBefore(s, pat, mark);
    var rest := InsertBefore(s[1..], pat, mark);
    assert t == [s[0]] + rest;
    assert rest[..|v| - 1] == t[1..|v|] == v[1..];
    assert v[0] == t[0] == s[0];
  }

  /** One character in front of a prefix that holds no match keeps it a prefix with no match. */
  lemma ExtendPlainPrefix(s: seq<char>, pat: seq<char>, v': seq<char>)
    requires |s| > 0 && !StartsWith(s, pat)
    requires StartsWith(s[1..], v')
    requires forall i :: 0 <= i < |v'| ==> !StartsWith(s[1..][i..], pat)
    ensures StartsWith(s, [s[0]] + v')
    ensures forall i :: 0 <= i < |v'| + 1 ==> !StartsWith(s[i..], pat)
  {
    assert s[..|v'| + 1] == [s[0]] + s[1..][..|v'|];
    forall i | 0 <= i < |v'| + 1 ensures !StartsWith(s[i..], pat) {
      if i == 0 {
        assert s[0..] == s;
      } else {
        assert s[1..][i - 1..] == s[i..];
      }
    }
  }

  /** One character in front of a prefix that ends with the first inserted block. */
  lemma ExtendMarkedPrefix(s: seq<char>, pat: seq<char>, mark: seq<char>, v': seq<char>)
    requires |s| > 0
    requires |mark + pat| <= |v'| <= |s| - 1 + |mark + pat|
    requires v' == s[1..][..|v'| - |mark + pat|] + mark + pat
    requires StartsWith(s[1..][|v'| - |mark + pat|..], pat)
    ensures [s[0]] + v' == s[..|v'| + 1 - |mark + pat|] + mark + pat
    ensures StartsWith(s[|v'| + 1 - |mark + pat|..], pat)
  {
    var p := |v'| - |mark + pat|;
    assert s[..p + 1] == [s[0]] + s[1..][..p];
    assert s[1..][p..] == s[p + 1..];
  }

  /** Where no match of `pat` starts inside a prefix `v`, the rewrite keeps that prefix. */
  lemma {:induction false} RewriteKeepsPrefix(s: seq<char>, pat: seq<char>, mark: seq<char>, v: seq<char>)
    requires |pat| > 0
    requires StartsWith(s, v)
    requires forall i :: 0 <= i < |v| ==> !StartsWith(s[i..], pat)
    ensures StartsWith(InsertBefore(s, pat, mark), v)
    decreases |v|
  {
    if |v| > 0 {
      assert s[0..] == s;
      assert InsertBefore(s, pat, mark) == [s[0]] + InsertBefore(s[1..], pat, mark);
      forall i | 0 <= i < |v| - 1 ensures !StartsWith(s[1..][i..], pat) {
        assert s[1..][i..] == s[i + 1..];
      }
      RewriteKeepsPrefix(s[1..], pat, mark, v[1..]);
    }
  }

  // ---------------------------------------------------------------------
  // Properties of one rewrite pass

  /** A text that begins with `mark + pat` has `pat` right after the marker. */
  lemma StartsWithShift(s: seq<char>, mark: seq<char>, pat: seq<char>)
    ensures StartsWith(s, mark + pat) ==> StartsWith(s[|mark|..], pat)
  {
    if StartsWith(s, mark + pat) {
      assert s[|mark|..][..|pat|] == s[|mark|..|mark + pat|] == (mark + pat)[|mark|..];
    }
  }

  /** Under `Delimited`, the pattern and the marker each obey the closer rule. */
  lemma DelimitedParts(mark: seq<char>, pat: seq<char>)
    requires Delimited(mark, pat)
    ensures ClosedBy(pat, pat[|pat| - 1])
    ensures forall i :: 0 <= i < |mark| ==> mark[i] != pat[|pat| - 1]
  {
    var w := mark + pat;
    forall i | 0 <= i < |pat| - 1 ensures pat[i] != pat[|pat| - 1] {
      assert pat[i] == w[|mark| + i];
    }
    forall i | 0 <= i < |mark| ensures mark[i] != pat[|pat| - 1] {
      assert mark[i] == w[i];
    }
  }

  /** A text without the pattern is returned unchanged. */
  lemma {:induction false} InsertBeforeNoMatch(s: seq<char>, pat: seq<char>, mark: seq<char>)
    requires |pat| > 0
    requires Occurrences(s, pat) == 0
    ensures InsertBefore(s, pat, mark) == s
    decreases |s|
  {
    if |s| > 0 {
      InsertBeforeNoMatch(s[1..], pat, mark);
    }
  }

  /** A match at the front counts once, and the count goes on after it. */
  lemma OccurrencesAtMatch(s: seq<char>, pat: seq<char>, mark: seq<char>)
    requires Delimited(mark, pat) && StartsWith(s, pat)
    ensures Occurrences(s, pat) == 1 + Occurrences(s[|pat|..], pat)
  {
    DelimitedParts(mark, pat);
    assert s == pat + s[|pat|..];
    OccurrencesAfterBlock(pat, pat, s[|pat|..], pat[|pat| - 1]);
  }

  lemma MulSucc(n: nat, m: nat)
    ensures (n + 1) * m == n * m + m
  {
  }

  /** Each occurrence of the pattern grows the text by exactly one marker. */
  lemma {:induction false} InsertBeforeLength(s: seq<char>, pat: seq<char>, mark: seq<char>)
    requires Delimited(mark, pat)
    ensures |InsertBefore(s, pat, mark)| == |s| + Occurrences(s, pat) * |mark|
    decreases |s|
  {
    if |s| == 0 {
    } else if StartsWith(s, pat) {
      var rest := s[|pat|..];
      OccurrencesAtMatch(s, pat, mark);
      InsertBeforeLength(rest, pat, mark);
      MulSucc(Occurrences(rest, pat), |mark|);
    } else {
      InsertBeforeLength(s[1..], pat, mark);
      assert Occurrences(s, pat) == Occurrences(s[1..], pat);
    }
  }

  /** Deleting every inserted marker recovers the original text. */
  lemma {:induction false} StripInsertBefore(s: seq<char>, pat: seq<char>, mark: seq<char>)
    requires Delimited(mark, pat)
    ensures Strip(InsertBefore(s, pat, mark), pat, mark) == s
    decreases |s|
  {
    var w := mark + pat;
    var t := InsertBefore(s, pat, mark);
    if |s| == 0 {
    } else if StartsWith(s, pat) {
      var rest := InsertBefore(s[|pat|..], pat, mark);
      assert t == w + rest;
      assert StartsWith(t, w);
      assert t[|w|..] == rest;
      StripInsertBefore(s[|pat|..], pat, mark);
      assert s == pat + s[|pat|..];
    } else {
      if StartsWith(t, w) {
        RewritePrefix(s, pat, mark, w);
        StartsWithShift(s, mark, pat);
      }
      assert t == [s[0]] + InsertBefore(s[1..], pat, mark);
      StripInsertBefore(s[1..], pat, mark);
    }
  }

  /**
   * A pass preserves the number of occurrences of its own pattern, and of any
   * other pattern with the same closer that is not a suffix of it (nor it of
   * that one).
   */
  lemma {:induction false} InsertBeforeOccurrences(s: seq<char>, pat: seq<char>, mark: seq<char>, q: seq<char>)
    requires Delimited(mark, pat)
    requires ClosedBy(q, pat[|pat| - 1])
    requires q == pat || Unrelated(q, pat)
    ensures Occurrences(InsertBefore(s, pat, mark), q) == Occurrences(s, q)
    decreases |s|
  {
    if |s| == 0 {
    } else if StartsWith(s, pat) {
      InsertBeforeOccurrences(s[|pat|..], pat, mark, q);
      OccurrencesMatchStep(s, pat, mark, q);
    } else {
      InsertBeforeOccurrences(s[1..], pat, mark, q);
      OccurrencesPlainStep(s, pat, mark, q);
    }
  }

  /** At a match, the inserted block adds no occurrence of `q` beyond the one the pattern itself carries. */
  lemma OccurrencesMatchStep(s: seq<char>, pat: seq<char>, mark: seq<char>, q: seq<char>)
    requires Delimited(mark, pat)
    requires ClosedBy(q, pat[|pat| - 1])
    requires q == pat || Unrelated(q, pat)
    requires StartsWith(s, pat)
    requires Occurrences(InsertBefore(s[|pat|..], pat, mark), q) == Occurrences(s[|pat|..], q)
    ensures Occurrences(InsertBefore(s, pat, mark), q) == Occurrences(s, q)
  {
    var c := pat[|pat| - 1];
    var w := mark + pat;
    var t := InsertBefore(s, pat, mark);
    var r := s[|pat|..];
    var y := InsertBefore(r, pat, mark);
    DelimitedParts(mark, pat);
    assert t == w + y;
    forall i | 0 <= i < |mark| ensures !StartsWith(t[i..], q) {
      if StartsWith(t[i..], q) {
        MatchInsideBlock(w, q, y, c, i);
      }
    }
    OccurrencesDrop(t, q, |mark|);
    assert t[|mark|..] == pat + y;
    OccurrencesAfterBlock(pat, q, y, c);
    assert s == pat + r;
    OccurrencesAfterBlock(pat, q, r, c);
  }

  /** Away from a match, the rewritten text starts with `q` exactly when the original does. */
  lemma OccurrencesPlainStep(s: seq<char>, pat: seq<char>, mark: seq<char>, q: seq<char>)
    requires Delimited(mark, pat)
    requires ClosedBy(q, pat[|pat| - 1])
    requires q == pat || Unrelated(q, pat)
    requires |s| > 0 && !StartsWith(s, pat)
    requires Occurrences(InsertBefore(s[1..], pat, mark), q) == Occurrences(s[1..], q)
    ensures Occurrences(InsertBefore(s, pat, mark), q) == Occurrences(s, q)
  {
    var c := pat[|pat| - 1];
    var t := InsertBefore(s, pat, mark);
    DelimitedParts(mark, pat);
    assert t == [s[0]] + InsertBefore(s[1..], pat, mark);
    assert t[1..] == InsertBefore(s[1..], pat, mark);
    if StartsWith(t, q) {
      RewritePrefix(s, pat, mark, q);
    }
    if StartsWith(s, q) {
      forall i | 0 <= i < |q| ensures !StartsWith(s[i..], pat) {
        if StartsWith(s[i..], pat) {
          assert s == q + s[|q|..];
          MatchInsideBlock(q, pat, s[|q|..], c, i);
        }
      }
      RewriteKeepsPrefix(s, pat, mark, q);
    }
  }

  // ---------------------------------------------------------------------
  // modifyScript (src/services/scriptExecutor.js)

  const IntervalCall: seq<char> := "setInterval("
  const ObserverCall: seq<char> := "new MutationObserver("

  /** The assignment placed in front of every `setInterval(` call. */
  function IntervalMark(id: seq<char>): seq<char> {
    "window.scriptInterval_" + id + " = "
  }

  /** The assignment placed in front of every `new MutationObserver(` call. */
  function ObserverMark(id: seq<char>): seq<char> {
    "window.scriptObserver_" + id + " = "
  }

  /** The first global replace, then the second one on its output. */
  function ModifyScript(script: seq<char>, id: seq<char>): (r: seq<char>)
    ensures |r| >= |script|
  {
    InsertBefore(InsertBefore(script, IntervalCall, IntervalMark(id)), ObserverCall, ObserverMark(id))
  }

  /** Deletes the markers of both passes, the later pass first. */
  function RestoreScript(modified: seq<char>, id: seq<char>): seq<char> {
    Strip(Strip(modified, ObserverCall, ObserverMark(id)), IntervalCall, IntervalMark(id))
  }

  /** Text free of the closer, followed by a block it closes, is closed by it. */
  lemma FreeThenClosed(a: seq<char>, b: seq<char>, c: char)
    requires Free(a, c) && ClosedBy(b, c)
    ensures ClosedBy(a + b, c)
  {
    var w := a + b;
    forall i | 0 <= i < |w| - 1 ensures w[i] != c {
      if i < |a| {
        assert w[i] == a[i];
      } else {
        assert w[i] == b[i - |a|];
      }
    }
  }

  /** Two texts free of a character make a text free of it. */
  lemma FreeConcat(a: seq<char>, b: seq<char>, c: char)
    requires Free(a, c) && Free(b, c)
    ensures Free(a + b, c)
  {
    var w := a + b;
    forall i | 0 <= i < |w| ensures w[i] != c {
      if i < |a| {
        assert w[i] == a[i];
      } else {
        assert w[i] == b[i - |a|];
      }
    }
  }

  /** With an id free of `(`, both markers satisfy the closer rule and the two calls are unrelated. */
  lemma MarkersDelimited(id: seq<char>)
    requires Free(id, '(')
    ensures Delimited(IntervalMark(id), IntervalCall)
    ensures Delimited(ObserverMark(id), ObserverCall)
    ensures ClosedBy(IntervalCall, '(') && ClosedBy(ObserverCall, '(')
    ensures Unrelated(IntervalCall, ObserverCall)
  {
    assert Free("window.scriptInterval_", '(');
    assert Free("window.scriptObserver_", '(');
    assert Free(" = ", '(');
    assert ClosedBy(IntervalCall, '(');
    assert ClosedBy(ObserverCall, '(');
    FreeConcat("window.scriptInterval_", id, '(');
    FreeConcat("window.scriptInterval_" + id, " = ", '(');
    FreeThenClosed(IntervalMark(id), IntervalCall, '(');
    FreeConcat("window.scriptObserver_", id, '(');
    FreeConcat("window.scriptObserver_" + id, " = ", '(');
    FreeThenClosed(ObserverMark(id), ObserverCall, '(');
    assert ObserverCall[|ObserverCall| - 2] != IntervalCall[|IntervalCall| - 2];
  }

  /** Deleting every inserted assignment recovers the caller's script. */
  lemma ModifyScriptRoundTrip(script: seq<char>, id: seq<char>)
    requires Free(id, '(')
    ensures RestoreScript(ModifyScript(script, id), id) == script
  {
    MarkersDelimited(id);
    var once := InsertBefore(script, IntervalCall, IntervalMark(id));
    StripInsertBefore(once, ObserverCall, ObserverMark(id));
    StripInsertBefore(script, IntervalCall, IntervalMark(id));
  }

  /** The rewrite keeps the number of `setInterval(` and `new MutationObserver(` calls. */
  lemma ModifyScriptKeepsCalls(script: seq<char>, id: seq<char>)
    requires Free(id, '(')
    ensures Occurrences(ModifyScript(script, id), IntervalCall) == Occurrences(script, IntervalCall)
    ensures Occurrences(ModifyScript(script, id), ObserverCall) == Occurrences(script, ObserverCall)
  {
    MarkersDelimited(id);
    var once := InsertBefore(script, IntervalCall, IntervalMark(id));
    InsertBeforeOccurrences(script, IntervalCall, IntervalMark(id), IntervalCall);
    InsertBeforeOccurrences(once, ObserverCall, ObserverMark(id), IntervalCall);
    InsertBeforeOccurrences(script, IntervalCall, IntervalMark(id), ObserverCall);
    InsertBeforeOccurrences(once, ObserverCall, ObserverMark(id), ObserverCall);
  }

  /** Each call in the script adds exactly one assignment of its kind, and nothing else is added. */
  lemma ModifyScriptLength(script: seq<char>, id: seq<char>)
    requires Free(id, '(')
    ensures |ModifyScript(script, id)|
         == |script| + Occurrences(script, IntervalCall) * |IntervalMark(id)|
                     + Occurrences(script, ObserverCall) * |ObserverMark(id)|
  {
    MarkersDelimited(id);
    var once := InsertBefore(script, IntervalCall, IntervalMark(id));
    InsertBeforeLength(script, IntervalCall, IntervalMark(id));
    InsertBeforeLength(once, ObserverCall, ObserverMark(id));
    InsertBeforeOccurrences(script, IntervalCall, IntervalMark(id), ObserverCall);
  }

  /** A script is returned unchanged exactly when it contains neither call. */
  lemma ModifyScriptUnchanged(script: seq<char>, id: seq<char>)
    requires Free(id, '(')
    ensures ModifyScript(script, id) == script
        <==> Occurrences(script, IntervalCall) == 0 && Occurrences(script, ObserverCall) == 0
  {
    if Occurrences(script, IntervalCall) == 0 && Occurrences(script, ObserverCall) == 0 {
      InsertBeforeNoMatch(script, IntervalCall, IntervalMark(id));
      InsertBeforeNoMatch(script, ObserverCall, ObserverMark(id));
    } else {
      ModifyScriptLength(script, id);
      MarkGrowth(|script|, Occurrences(script, IntervalCall), |IntervalMark(id)|,
                 Occurrences(script, ObserverCall), |ObserverMark(id)|);
    }
  }

  /** Adding at least one non-empty marker makes a text strictly longer. */
  lemma MarkGrowth(base: nat, a: nat, m: nat, b: nat, n: nat)
    requires a + b > 0 && m > 0 && n > 0
    ensures base + a * m + b * n > base
  {
    if a > 0 {
      assert a * m >= m;
    } else {
      assert b * n >= n;
    }
  }
}
