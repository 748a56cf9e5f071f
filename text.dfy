/** Splitting a string on a one-character separator and joining the pieces again: what
    JavaScript's `str.split(',')` and Python's `line.split(' ')` and `','.join(...)` do. */
module Strings {

  /** The pieces of `s` between occurrences of `sep`, in order; an empty string, or one
      with a separator at either end, yields empty pieces, as both languages do. */
  function Split(s: string, sep: char): (r: seq<string>)
    ensures |r| >= 1
  {
    if s == [] then [[]]
    else
      var rest := Split(s[1..], sep);
      if s[0] == sep then [[]] + rest else [[s[0]] + rest[0]] + rest[1..]
  }

  /** The pieces glued back together with `sep` between neighbours. */
  function Join(pieces: seq<string>, sep: char): string
    requires |pieces| >= 1
  {
    if |pieces| == 1 then pieces[0] else pieces[0] + [sep] + Join(pieces[1..], sep)
  }

  /** The number of occurrences of `c` in `s`. */
  function Count(s: string, c: char): nat
  {
    if s == [] then 0 else (if s[0] == c then 1 else 0) + Count(s[1..], c)
  }

  /** Splitting loses nothing: joining the pieces gives the string back. */
  lemma {:induction false} JoinSplit(s: string, sep: char)
    ensures Join(Split(s, sep), sep) == s
  {
    if s != [] {
      var rest := Split(s[1..], sep);
      JoinSplit(s[1..], sep);
      if s[0] == sep {
        assert Split(s, sep)[1..] == rest;
      } else {
        var r := Split(s, sep);
        if |rest| > 1 {
          assert r[1..] == rest[1..];
          calc {
            Join(r, sep);
            r[0] + [sep] + Join(rest[1..], sep);
            [s[0]] + (rest[0] + [sep] + Join(rest[1..], sep));
            [s[0]] + s[1..];
          }
        }
      }
    }
  }

  /** There is one piece more than there are separators, and no piece holds one. */
  lemma {:induction false} SplitPieces(s: string, sep: char)
    ensures |Split(s, sep)| == Count(s, sep) + 1
    ensures forall k | 0 <= k < |Split(s, sep)| :: sep !in Split(s, sep)[k]
  {
    if s != [] {
      SplitPieces(s[1..], sep);
      var rest := Split(s[1..], sep);
      if s[0] != sep {
        assert sep !in rest[0];
        forall k | 0 <= k < |Split(s, sep)| ensures sep !in Split(s, sep)[k] {
          if k > 0 {
            assert Split(s, sep)[k] == rest[k];
          }
        }
      } else {
        forall k | 0 <= k < |Split(s, sep)| ensures sep !in Split(s, sep)[k] {
          if k > 0 {
            assert Split(s, sep)[k] == rest[k - 1];
          }
        }
      }
    }
  }

  /** A separator-free prefix only lengthens the first piece. */
  lemma {:induction false} SplitPrefix(p: string, t: string, sep: char)
    requires sep !in p
    ensures Split(p + t, sep) == [p + Split(t, sep)[0]] + Split(t, sep)[1..]
  {
    if p != [] {
      SplitPrefix(p[1..], t, sep);
      assert (p + t)[1..] == p[1..] + t;
      assert [p[0]] + (p[1..] + Split(t, sep)[0]) == p + Split(t, sep)[0];
    } else {
      assert p + t == t;
      assert p + Split(t, sep)[0] == Split(t, sep)[0];
      assert Split(t, sep) == [Split(t, sep)[0]] + Split(t, sep)[1..];
    }
  }

  /** A separator-free suffix only lengthens the last piece. */
  lemma {:induction false} SplitSuffix(a: string, b: string, sep: char)
    requires sep !in b
    ensures var r, n := Split(a, sep), |Split(a, sep)|;
      Split(a + b, sep) == r[..n - 1] + [r[n - 1] + b]
  {
    if a == [] {
      SplitPrefix(b, [], sep);
      assert b + [] == b && a + b == b;
    } else {
      SplitSuffix(a[1..], b, sep);
      assert (a + b)[1..] == a[1..] + b && (a + b)[0] == a[0];
      if a[0] == sep {
        LengthenLastBehindEmpty(Split(a[1..], sep), b);
      } else {
        LengthenLastBehindChar(a[0], Split(a[1..], sep), b);
      }
    }
  }

  /** The last piece lengthened by `b`. */
  function LengthenLast(r: seq<string>, b: string): seq<string>
    requires |r| >= 1
  {
    r[..|r| - 1] + [r[|r| - 1] + b]
  }

  /** Lengthening the last piece commutes with a new empty first piece. */
  lemma LengthenLastBehindEmpty(r: seq<string>, b: string)
    requires |r| >= 1
    ensures [[]] + LengthenLast(r, b) == LengthenLast([[]] + r, b)
  {
    assert ([[]] + r)[..|r|] == [[]] + r[..|r| - 1];
  }

  /** Lengthening the last piece commutes with a character put in front of the first. */
  lemma LengthenLastBehindChar(c: char, r: seq<string>, b: string)
    requires |r| >= 1
    ensures var rb := LengthenLast(r, b);
      [[c] + rb[0]] + rb[1..] == LengthenLast([[c] + r[0]] + r[1..], b)
  {
    var rb := LengthenLast(r, b);
    if |r| == 1 {
      assert [c] + (r[0] + b) == ([c] + r[0]) + b;
    } else {
      assert rb[0] == r[0];
      assert rb[1..] == r[1..|r| - 1] + [r[|r| - 1] + b];
      assert ([[c] + r[0]] + r[1..])[..|r| - 1] == [[c] + r[0]] + r[1..|r| - 1];
    }
  }

  /** Splitting undoes joining, as long as no piece holds the separator. */
  lemma {:induction false} SplitJoin(pieces: seq<string>, sep: char)
    requires |pieces| >= 1
    requires forall k | 0 <= k < |pieces| :: sep !in pieces[k]
    ensures Split(Join(pieces, sep), sep) == pieces
  {
    if |pieces| == 1 {
      SplitPrefix(pieces[0], [], sep);
      assert pieces[0] + [] == pieces[0];
    } else {
      var tail := Join(pieces[1..], sep);
      SplitJoin(pieces[1..], sep);
      assert pieces[0] + [sep] + tail == pieces[0] + ([sep] + tail);
      SplitPrefix(pieces[0], [sep] + tail, sep);
      assert ([sep] + tail)[1..] == tail;
      assert Split([sep] + tail, sep) == [[]] + pieces[1..];
      assert pieces[0] + [] == pieces[0];
      assert pieces == [pieces[0]] + pieces[1..];
    }
  }
}
