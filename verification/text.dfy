/**
 * Joining strings with a one-character separator (Python's `sep.join(parts)`) and its inverse,
 * splitting at every occurrence of the separator (Python's `s.split(sep)`).
 */
module Text {

  /** The number of characters in all parts together. */
  function TotalLength(parts: seq<string>): (n: nat)
  {
    if parts == [] then 0 else |parts[0]| + TotalLength(parts[1..])
  }

  /**
   * `sep.join(parts)`: the parts in order, with one `sep` between neighbours, so a join of `n`
   * parts adds `n - 1` separator characters to the parts' own.
   */
  function Join(sep: char, parts: seq<string>): (joined: string)
    ensures parts != [] ==> |joined| == TotalLength(parts) + |parts| - 1
  {
    if parts == [] then ""
    else if |parts| == 1 then parts[0]
    else parts[0] + [sep] + Join(sep, parts[1..])
  }

  /** `s.split(sep)`: the maximal pieces of `s` between occurrences of `sep`. */
  function Split(sep: char, s: string): (pieces: seq<string>)
    ensures |pieces| >= 1
    ensures forall i :: 0 <= i < |pieces| ==> sep !in pieces[i]
  {
    if s == [] then [""]
    else if s[0] == sep then [""] + Split(sep, s[1..])
    else
      var rest := Split(sep, s[1..]);
      [[s[0]] + rest[0]] + rest[1..]
  }

  /** Joining two non-empty lists of parts puts one separator between the two joins. */
  lemma {:induction false} JoinAppend(sep: char, a: seq<string>, b: seq<string>)
    requires a != [] && b != []
    ensures Join(sep, a + b) == Join(sep, a) + [sep] + Join(sep, b)
  {
    if |a| == 1 {
      assert (a + b)[1..] == b;
    } else {
      assert (a + b)[1..] == a[1..] + b;
      JoinAppend(sep, a[1..], b);
    }
  }

  /** Joining the first three parts in front of a non-empty rest. */
  lemma JoinThree(sep: char, a: string, b: string, c: string, rest: seq<string>)
    requires rest != []
    ensures Join(sep, [a, b, c] + rest) == a + [sep] + b + [sep] + c + [sep] + Join(sep, rest)
  {
    var parts := [a, b, c] + rest;
    assert parts[1..] == [b, c] + rest;
    assert parts[1..][1..] == [c] + rest;
    assert parts[1..][1..][1..] == rest;
    assert Join(sep, [c] + rest) == c + [sep] + Join(sep, rest);
    assert Join(sep, [b, c] + rest) == b + [sep] + (c + [sep] + Join(sep, rest));
    assert Join(sep, parts) == a + [sep] + (b + [sep] + (c + [sep] + Join(sep, rest)));
  }

  /** Joining four parts. */
  lemma JoinFour(sep: char, a: string, b: string, c: string, d: string)
    ensures Join(sep, [a, b, c, d]) == a + [sep] + b + [sep] + c + [sep] + d
  {
    assert [a, b, c, d] == [a, b, c] + [d];
    JoinThree(sep, a, b, c, [d]);
  }

  /** Joining seven parts. */
  lemma JoinSeven(sep: char, a: string, b: string, c: string, d: string, e: string, f: string,
                  g: string)
    ensures Join(sep, [a, b, c, d, e, f, g])
            == a + [sep] + b + [sep] + c + [sep] + d + [sep] + e + [sep] + f + [sep] + g
  {
    assert [a, b, c, d, e, f, g] == [a, b, c] + [d, e, f, g];
    JoinThree(sep, a, b, c, [d, e, f, g]);
    JoinFour(sep, d, e, f, g);
  }

  /** Splitting a text without the separator gives the text itself. */
  lemma {:induction false} SplitClean(sep: char, s: string)
    requires sep !in s
    ensures Split(sep, s) == [s]
  {
    if s != [] {
      SplitClean(sep, s[1..]);
      assert [s[0]] + s[1..] == s;
    }
  }

  /** A clean piece followed by the separator splits off as the first piece. */
  lemma {:induction false} SplitPrefix(sep: char, a: string, b: string)
    requires sep !in a
    ensures Split(sep, a + [sep] + b) == [a] + Split(sep, b)
  {
    if a == [] {
      assert (a + [sep] + b)[1..] == b;
    } else {
      assert (a + [sep] + b)[1..] == a[1..] + [sep] + b;
      SplitPrefix(sep, a[1..], b);
      assert [a[0]] + a[1..] == a;
    }
  }

  /** Splitting undoes joining exactly when no part contains the separator. */
  lemma {:induction false} SplitJoin(sep: char, parts: seq<string>)
    ensures Split(sep, Join(sep, parts)) == parts <==>
              parts != [] && forall i :: 0 <= i < |parts| ==> sep !in parts[i]
  {
    if parts != [] && forall i :: 0 <= i < |parts| ==> sep !in parts[i] {
      SplitJoinClean(sep, parts);
    }
  }

  lemma {:induction false} SplitJoinClean(sep: char, parts: seq<string>)
    requires parts != []
    requires forall i :: 0 <= i < |parts| ==> sep !in parts[i]
    ensures Split(sep, Join(sep, parts)) == parts
  {
    if |parts| == 1 {
      SplitClean(sep, parts[0]);
    } else {
      SplitPrefix(sep, parts[0], Join(sep, parts[1..]));
      SplitJoinClean(sep, parts[1..]);
      assert [parts[0]] + parts[1..] == parts;
    }
  }

  /** Joining the pieces of a split gives back the text. */
  lemma {:induction false} JoinSplit(sep: char, s: string)
    ensures Join(sep, Split(sep, s)) == s
  {
    if s != [] {
      JoinSplit(sep, s[1..]);
      var rest := Split(sep, s[1..]);
      if s[0] == sep {
        assert Split(sep, s) == [""] + rest;
        assert ([""] + rest)[1..] == rest;
      } else {
        var p := [[s[0]] + rest[0]] + rest[1..];
        assert p[1..] == rest[1..];
        if |rest| == 1 {
          assert Join(sep, rest) == rest[0];
        } else {
          assert Join(sep, rest) == rest[0] + [sep] + Join(sep, rest[1..]);
        }
        assert [s[0]] + s[1..] == s;
      }
    }
  }

  /**
   * Joining is not injective: a part that contains the separator cannot be told apart from
   * two parts.
   */
  lemma JoinAmbiguous(sep: char, a: string, b: string)
    ensures Join(sep, [a + [sep] + b]) == Join(sep, [a, b])
  {
    assert [a, b][1..] == [b];
  }

  /**
   * A character occurs in a join exactly when it occurs in one of the parts, or it is the
   * separator and there are at least two parts.
   */
  lemma {:induction false} CharInJoin(c: char, sep: char, parts: seq<string>)
    ensures c in Join(sep, parts) <==>
              (c == sep && |parts| >= 2) || exists i :: 0 <= i < |parts| && c in parts[i]
  {
    if |parts| >= 2 {
      CharInJoin(c, sep, parts[1..]);
      var j := Join(sep, parts);
      assert j == parts[0] + [sep] + Join(sep, parts[1..]);
      assert j[|parts[0]|] == sep;
      if exists i :: 0 <= i < |parts[1..]| && c in parts[1..][i] {
        var i :| 0 <= i < |parts[1..]| && c in parts[1..][i];
        assert c in parts[i + 1];
      }
      if exists i :: 0 <= i < |parts| && c in parts[i] {
        var i :| 0 <= i < |parts| && c in parts[i];
        if i > 0 {
          assert c in parts[1..][i - 1];
        }
      }
    }
  }
}
