/** The step Lex applies to a line read from the line supplier before it
    appends it to the buffer: escaped line ends are joined, and a line read
    with an error is terminated with a newline. */
module Lines {

  /** Whether `s` holds a backslash immediately followed by a newline. */
  predicate HasContinuation(s: string) {
    exists i | 0 <= i < |s| - 1 :: s[i] == '\\' && s[i + 1] == '\n'
  }

  /** The number of positions at which a backslash-newline pair starts.
      Two such pairs never overlap, since a pair starts with a backslash
      and ends with a newline. */
  function PairCount(s: string): nat
    decreases |s|
  {
    if |s| < 2 then 0
    else (if s[0] == '\\' && s[1] == '\n' then 1 else 0) + PairCount(s[1..])
  }

  /** `r` is `s` with some characters deleted, the rest kept in order. */
  predicate Subsequence(r: string, s: string)
    decreases |s|
  {
    r == [] || (s != [] && ((r[0] == s[0] && Subsequence(r[1..], s[1..])) || Subsequence(r, s[1..])))
  }

  /** Every non-overlapping backslash-newline pair, scanning left to right,
      is removed (strings.Replace with an empty replacement). */
  function RemoveContinuations(s: string): (r: string)
    ensures |r| <= |s|
    ensures !HasContinuation(s) ==> r == s
    ensures |r| < |s| <==> HasContinuation(s)
    decreases |s|
  {
    if |s| < 2 then s
    else if s[0] == '\\' && s[1] == '\n' then
      RemoveContinuations(s[2..])
    else
      assert HasContinuation(s) <==> HasContinuation(s[1..]) by {
        if HasContinuation(s[1..]) {
          var i :| 0 <= i < |s[1..]| - 1 && s[1..][i] == '\\' && s[1..][i + 1] == '\n';
          assert s[i + 1] == '\\' && s[i + 2] == '\n';
        }
        if HasContinuation(s) {
          var i :| 0 <= i < |s| - 1 && s[i] == '\\' && s[i + 1] == '\n';
          assert s[1..][i - 1] == '\\' && s[1..][i] == '\n';
        }
      }
      [s[0]] + RemoveContinuations(s[1..])
  }

  /** The characters that are kept stay in order. */
  lemma {:induction false} ContinuationsKeepOrder(s: string)
    ensures Subsequence(RemoveContinuations(s), s)
    decreases |s|
  {
    var r := RemoveContinuations(s);
    if |s| < 2 {
      if s != [] {
        assert r[1..] == [] && s[1..] == [];
      }
    } else if s[0] == '\\' && s[1] == '\n' {
      ContinuationsKeepOrder(s[2..]);
      assert s[1..][1..] == s[2..];
      assert Subsequence(r, s[1..]);
    } else {
      ContinuationsKeepOrder(s[1..]);
      assert r[1..] == RemoveContinuations(s[1..]);
    }
  }

  /** Every backslash-newline pair of the line is removed: the result is
      shorter by exactly two characters per pair. */
  lemma {:induction false} ContinuationsRemoved(s: string)
    ensures |s| == |RemoveContinuations(s)| + 2 * PairCount(s)
    decreases |s|
  {
    if |s| >= 2 {
      if s[0] == '\\' && s[1] == '\n' {
        ContinuationsRemoved(s[2..]);
        assert s[1..][1..] == s[2..];
      } else {
        ContinuationsRemoved(s[1..]);
      }
    }
  }

  /** Nothing but the pairs goes: every other character keeps its count. */
  lemma {:induction false} ContinuationsKeepOthers(s: string)
    ensures var r := RemoveContinuations(s);
      forall c | c != '\\' && c != '\n' :: multiset(r)[c] == multiset(s)[c]
    decreases |s|
  {
    if |s| >= 2 {
      if s[0] == '\\' && s[1] == '\n' {
        assert multiset(s) == multiset{s[0], s[1]} + multiset(s[2..]) by {
          assert s == [s[0], s[1]] + s[2..];
        }
        ContinuationsKeepOthers(s[2..]);
        assert s[1..][1..] == s[2..];
      } else {
        assert multiset(s) == multiset{s[0]} + multiset(s[1..]) by {
          assert s == [s[0]] + s[1..];
        }
        ContinuationsKeepOthers(s[1..]);
      }
    }
  }

  /** Each pair removed takes exactly one backslash and one newline. */
  lemma ContinuationCounts(s: string)
    ensures var r := RemoveContinuations(s);
      && multiset(s)['\\'] == multiset(r)['\\'] + PairCount(s)
      && multiset(s)['\n'] == multiset(r)['\n'] + PairCount(s)
  {
    PairCharCount(s, '\\');
    PairCharCount(s, '\n');
  }

  /** One of the two characters of a pair: its count drops by one per pair. */
  lemma {:induction false} PairCharCount(s: string, ch: char)
    requires ch == '\\' || ch == '\n'
    ensures multiset(s)[ch] == multiset(RemoveContinuations(s))[ch] + PairCount(s)
    decreases |s|
  {
    if |s| >= 2 {
      if s[0] == '\\' && s[1] == '\n' {
        assert multiset(s) == multiset{s[0], s[1]} + multiset(s[2..]) by {
          assert s == [s[0], s[1]] + s[2..];
        }
        assert s[1..][1..] == s[2..];
        assert RemoveContinuations(s) == RemoveContinuations(s[2..]);
        assert PairCount(s) == 1 + PairCount(s[2..]);
        PairCharCount(s[2..], ch);
      } else {
        assert multiset(s) == multiset{s[0]} + multiset(s[1..]) by {
          assert s == [s[0]] + s[1..];
        }
        var rest := RemoveContinuations(s[1..]);
        assert RemoveContinuations(s) == [s[0]] + rest;
        assert multiset([s[0]] + rest) == multiset{s[0]} + multiset(rest);
        assert PairCount(s) == PairCount(s[1..]);
        PairCharCount(s[1..], ch);
      }
    }
  }

  /** The text Lex appends for a line read from the supplier. */
  function LineStep(line: string, failed: bool): (r: string)
    ensures failed ==> |r| > 0 && r[|r| - 1] == '\n'
    ensures !failed && !HasContinuation(line) ==> r == line
    ensures |r| + 2 * PairCount(line) == |line| + (if failed then 1 else 0)
  {
    ContinuationsRemoved(line);
    var joined := RemoveContinuations(line);
    if failed then joined + "\n" else joined
  }
}
