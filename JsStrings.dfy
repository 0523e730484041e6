/** The JavaScript string built-ins the core relies on, over Dafny strings:
    `split` with a one-character separator, `join`, an ASCII `toLowerCase`,
    `indexOf`, and array indexing that may yield `undefined`. */
module JsStrings {
  import opened Options

  /** `xs[i]`: the element at `i`, or `undefined` when `i` is out of range. */
  function At<T>(xs: seq<T>, i: nat): (r: Option<T>)
    ensures r.Some? <==> i < |xs|
    ensures r.Some? ==> r.value == xs[i]
  {
    if i < |xs| then Some(xs[i]) else None
  }

  // ---------------------------------------------------------------------------
  // split / join

  /** `s.split(sep)` for a one-character `sep`: the pieces between separators,
      empty pieces included; the result is never empty (`"".split(",")` is `[""]`). */
  function Split(s: string, sep: char): (r: seq<string>)
    ensures |r| >= 1
    decreases |s|
  {
    if |s| == 0 then [""]
    else
      var rest := Split(s[1..], sep);
      if s[0] == sep then [""] + rest
      else [[s[0]] + rest[0]] + rest[1..]
  }

  /** `pieces.join(sep)`. */
  function Join(pieces: seq<string>, sep: char): string
    decreases |pieces|
  {
    if |pieces| == 0 then ""
    else if |pieces| == 1 then pieces[0]
    else pieces[0] + [sep] + Join(pieces[1..], sep)
  }

  /** No piece of a split contains the separator. */
  lemma {:induction false} SplitPiecesHaveNoSeparator(s: string, sep: char)
    ensures forall i :: 0 <= i < |Split(s, sep)| ==> sep !in Split(s, sep)[i]
  {
    if |s| > 0 {
      SplitPiecesHaveNoSeparator(s[1..], sep);
      var rest := Split(s[1..], sep);
      if s[0] != sep {
        assert sep !in rest[0];
        assert sep !in [s[0]] + rest[0];
      }
    }
  }

  /** Joining the pieces of a split gives back the string. */
  lemma {:induction false} JoinSplit(s: string, sep: char)
    ensures Join(Split(s, sep), sep) == s
  {
    if |s| > 0 {
      JoinSplit(s[1..], sep);
      var rest := Split(s[1..], sep);
      if s[0] == sep {
        assert Split(s, sep) == [""] + rest;
        assert ([""] + rest)[1..] == rest;
        assert s == [sep] + s[1..];
      } else {
        var r := Split(s, sep);
        assert r == [[s[0]] + rest[0]] + rest[1..];
        assert r[1..] == rest[1..];
        if |rest| == 1 {
          assert Join(r, sep) == [s[0]] + rest[0];
          assert s == [s[0]] + s[1..];
        } else {
          assert Join(rest, sep) == rest[0] + [sep] + Join(rest[1..], sep);
          assert Join(r, sep) == ([s[0]] + rest[0]) + [sep] + Join(rest[1..], sep);
          assert s == [s[0]] + s[1..];
        }
      }
    }
  }

  /** A string without the separator splits into itself alone. */
  lemma {:induction false} SplitWithoutSeparator(s: string, sep: char)
    requires sep !in s
    ensures Split(s, sep) == [s]
  {
    if |s| > 0 {
      assert sep !in s[1..] by {
        forall k | 0 <= k < |s[1..]| ensures s[1..][k] != sep { assert s[1..][k] == s[k + 1]; }
      }
      SplitWithoutSeparator(s[1..], sep);
      assert s == [s[0]] + s[1..];
    }
  }

  /** How a split starts: with an empty piece at a separator, otherwise by
      extending the first piece of the rest. */
  lemma SplitCons(c: char, t: string, sep: char)
    ensures Split([c] + t, sep) ==
      if c == sep then [""] + Split(t, sep) else [[c] + Split(t, sep)[0]] + Split(t, sep)[1..]
  {
    assert ([c] + t)[0] == c && ([c] + t)[1..] == t;
  }

  /** A separator between two strings separates their pieces. */
  lemma {:induction false} SplitAroundSeparator(a: string, b: string, sep: char)
    ensures Split(a + [sep] + b, sep) == Split(a, sep) + Split(b, sep)
    decreases |a|
  {
    if |a| == 0 {
      assert a + [sep] + b == [sep] + b;
      SplitCons(sep, b, sep);
    } else {
      var c, s' := a[0], a[1..] + [sep] + b;
      var restA, splitB := Split(a[1..], sep), Split(b, sep);
      assert Split(a + [sep] + b, sep) == Split([c] + s', sep) by {
        assert a + [sep] + b == [c] + s';
      }
      assert Split(a, sep) == Split([c] + a[1..], sep) by {
        assert a == [c] + a[1..];
      }
      assert Split(s', sep) == restA + splitB by {
        SplitAroundSeparator(a[1..], b, sep);
      }
      SplitConsAround(c, restA, splitB, s', a[1..], sep);
    }
  }

  /** The step of SplitAroundSeparator: a first character in front of both. */
  lemma SplitConsAround(c: char, restA: seq<string>, splitB: seq<string>, s': string, a': string, sep: char)
    requires Split(s', sep) == restA + splitB && Split(a', sep) == restA
    ensures Split([c] + s', sep) == Split([c] + a', sep) + splitB
  {
    SplitCons(c, a', sep);
    SplitCons(c, s', sep);
    if c != sep {
      ReplaceHead([c] + restA[0], restA, splitB);
    } else {
      assert [""] + (restA + splitB) == ([""] + restA) + splitB;
    }
  }

  /** Replacing the head of `a + b` is replacing the head of `a`. */
  lemma ReplaceHead<T>(x: T, a: seq<T>, b: seq<T>)
    requires |a| >= 1
    ensures [x] + (a + b)[1..] == ([x] + a[1..]) + b
  {
    assert (a + b)[1..] == a[1..] + b;
  }

  /** A separator-free field in front of a separator is the first piece. */
  lemma SplitLeadingField(field: string, rest: string, sep: char)
    requires sep !in field
    ensures Split(field + [sep] + rest, sep) == [field] + Split(rest, sep)
  {
    SplitAroundSeparator(field, rest, sep);
    SplitWithoutSeparator(field, sep);
  }

  /** Splitting a join of separator-free pieces gives back the pieces. */
  lemma {:induction false} SplitJoin(pieces: seq<string>, sep: char)
    requires |pieces| >= 1
    requires forall i :: 0 <= i < |pieces| ==> sep !in pieces[i]
    ensures Split(Join(pieces, sep), sep) == pieces
    decreases |pieces|
  {
    if |pieces| == 1 {
      SplitWithoutSeparator(pieces[0], sep);
    } else {
      SplitJoin(pieces[1..], sep);
      SplitWithoutSeparator(pieces[0], sep);
      SplitAroundSeparator(pieces[0], Join(pieces[1..], sep), sep);
      assert [pieces[0]] + pieces[1..] == pieces;
    }
  }

  // ---------------------------------------------------------------------------
  // toLowerCase (ASCII letters only)

  predicate IsUpperAscii(c: char) { 'A' <= c <= 'Z' }

  function LowerChar(c: char): (r: char)
  {
    if IsUpperAscii(c) then (c as int + 32) as char else c
  }

  /** `s.toLowerCase()`, restricted to the ASCII letters. */
  function Lower(s: string): (r: string)
    ensures |r| == |s|
    ensures forall i :: 0 <= i < |s| ==> r[i] == LowerChar(s[i])
  {
    seq(|s|, i requires 0 <= i < |s| => LowerChar(s[i]))
  }

  /** A string is lower case when it holds no upper-case ASCII letter. */
  predicate IsLower(s: string)
  {
    forall i :: 0 <= i < |s| ==> !IsUpperAscii(s[i])
  }

  /** The result of lower-casing is lower case, and lower-casing it again
      changes nothing; a string that is already lower case is left as it is. */
  lemma LowerIsLower(s: string)
    ensures IsLower(Lower(s))
    ensures Lower(Lower(s)) == Lower(s)
    ensures IsLower(s) ==> Lower(s) == s
  {
  }

  /** Lower-casing keeps every comma where it is and adds none. */
  lemma LowerKeepsCommas(s: string)
    ensures forall i :: 0 <= i < |s| ==> (Lower(s)[i] == ',' <==> s[i] == ',')
  {
  }

  /** Each piece of a split of a lower-cased string is lower case. */
  lemma {:induction false} SplitOfLowerIsLower(s: string, sep: char)
    requires IsLower(s)
    ensures forall i :: 0 <= i < |Split(s, sep)| ==> IsLower(Split(s, sep)[i])
    decreases |s|
  {
    if |s| > 0 {
      assert IsLower(s[1..]) by {
        forall k | 0 <= k < |s[1..]| ensures !IsUpperAscii(s[1..][k]) { assert s[1..][k] == s[k + 1]; }
      }
      SplitOfLowerIsLower(s[1..], sep);
      var rest := Split(s[1..], sep);
      if s[0] != sep {
        assert IsLower(rest[0]);
        assert IsLower([s[0]] + rest[0]) by {
          forall k | 0 <= k < |[s[0]] + rest[0]| ensures !IsUpperAscii(([s[0]] + rest[0])[k]) {
            if k > 0 { assert ([s[0]] + rest[0])[k] == rest[0][k - 1]; }
          }
        }
      }
    }
  }

  // ---------------------------------------------------------------------------
  // indexOf

  /** `sub` occurs in `s` starting at index `k`. */
  predicate OccursAt(s: string, sub: string, k: int)
  {
    0 <= k && k + |sub| <= |s| && s[k..k + |sub|] == sub
  }

  predicate Contains(s: string, sub: string)
  {
    exists k :: 0 <= k <= |s| && OccursAt(s, sub, k)
  }

  function IndexOfFrom(s: string, sub: string, from: nat): (r: int)
    ensures r == -1 || (from <= r && OccursAt(s, sub, r))
    ensures forall k :: from <= k && (r == -1 || k < r) ==> !OccursAt(s, sub, k)
    decreases |s| - from
  {
    if from + |sub| > |s| then -1
    else if s[from..from + |sub|] == sub then from
    else IndexOfFrom(s, sub, from + 1)
  }

  /** `s.indexOf(sub)`: the first index at which `sub` occurs, or -1 when it
      occurs nowhere. */
  function IndexOf(s: string, sub: string): (r: int)
    ensures r == -1 <==> !Contains(s, sub)
    ensures r != -1 ==> OccursAt(s, sub, r) && forall k :: 0 <= k < r ==> !OccursAt(s, sub, k)
  {
    IndexOfFrom(s, sub, 0)
  }
}
