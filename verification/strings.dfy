/**
 * The two JavaScript string operations the settings encoding relies on:
 * `Array.prototype.join` and `String.prototype.split`, both with a
 * one-character separator.
 */
module Strings {

  /** `parts.join(sep)`: the parts with one separator between neighbours. */
  function Join(parts: seq<string>, sep: char): (s: string)
    ensures |parts| > 0 ==> parts[0] <= s
    ensures |parts| > 0 ==> multiset(s)[sep] >= |parts| - 1
    decreases |parts|
  {
    if |parts| == 0 then ""
    else if |parts| == 1 then parts[0]
    else parts[0] + [sep] + Join(parts[1..], sep)
  }

  /** True when no part contains the separator. */
  predicate NoSeparator(parts: seq<string>, sep: char)
  {
    forall i :: 0 <= i < |parts| ==> sep !in parts[i]
  }

  /**
   * `s.split(sep)`: the maximal separator-free pieces between separators.
   * Like JavaScript, the empty string splits into one empty piece.
   */
  function Split(s: string, sep: char): (parts: seq<string>)
    ensures |parts| >= 1
    ensures NoSeparator(parts, sep)
    ensures |parts| == 1 + multiset(s)[sep]
  {
    if |s| == 0 then [""]
    else
      assert s == [s[0]] + s[1..];
      var rest := Split(s[1..], sep);
      if s[0] == sep then [""] + rest
      else [[s[0]] + rest[0]] + rest[1..]
  }

  /** Splitting a separator-free piece followed by a separator peels that piece off. */
  lemma {:induction false} SplitAfterPiece(p: string, rest: string, sep: char)
    requires sep !in p
    ensures Split(p + [sep] + rest, sep) == [p] + Split(rest, sep)
    decreases |p|
  {
    var s := p + [sep] + rest;
    if |p| == 0 {
      assert s[1..] == rest;
    } else {
      assert s[1..] == p[1..] + [sep] + rest;
      SplitAfterPiece(p[1..], rest, sep);
      assert [p[0]] + p[1..] == p;
    }
  }

  /** A separator-free string is a single piece. */
  lemma {:induction false} SplitSinglePiece(p: string, sep: char)
    requires sep !in p
    ensures Split(p, sep) == [p]
    decreases |p|
  {
    if |p| > 0 {
      SplitSinglePiece(p[1..], sep);
      assert [p[0]] + p[1..] == p;
    }
  }

  /**
   * Splitting a join gives the parts back, provided there is at least one
   * part and none contains the separator.
   */
  lemma {:induction false} SplitJoin(parts: seq<string>, sep: char)
    ensures |parts| > 0 && NoSeparator(parts, sep) ==> Split(Join(parts, sep), sep) == parts
    decreases |parts|
  {
    if |parts| == 1 && NoSeparator(parts, sep) {
      SplitSinglePiece(parts[0], sep);
    } else if |parts| > 1 && NoSeparator(parts, sep) {
      assert NoSeparator(parts[1..], sep);
      SplitJoin(parts[1..], sep);
      SplitAfterPiece(parts[0], Join(parts[1..], sep), sep);
      assert [parts[0]] + parts[1..] == parts;
    }
  }

  /** Joining a split gives the string back, for every string. */
  lemma {:induction false} JoinSplit(s: string, sep: char)
    ensures Join(Split(s, sep), sep) == s
    decreases |s|
  {
    if |s| > 0 {
      var c, tail := s[0], s[1..];
      assert s == [c] + tail;
      JoinSplit(tail, sep);
      var rest := Split(tail, sep);
      if c == sep {
        JoinAfterEmpty(rest, sep);
      } else {
        JoinExtendFirst(c, rest, sep);
      }
    }
  }

  /** Putting an empty part in front of at least one part puts a separator in front of the join. */
  lemma JoinAfterEmpty(parts: seq<string>, sep: char)
    requires |parts| > 0
    ensures Join([""] + parts, sep) == [sep] + Join(parts, sep)
  {
    var all := [""] + parts;
    assert all[0] == "" && all[1..] == parts;
  }

  /** Prefixing the first part with a character prefixes the join with it. */
  lemma JoinExtendFirst(c: char, parts: seq<string>, sep: char)
    requires |parts| > 0
    ensures Join([[c] + parts[0]] + parts[1..], sep) == [c] + Join(parts, sep)
  {
    var first := [c] + parts[0];
    var all := [first] + parts[1..];
    if |parts| > 1 {
      var more := Join(parts[1..], sep);
      assert all[1..] == parts[1..];
      assert Join(all, sep) == first + [sep] + more;
      assert first + [sep] + more == [c] + (parts[0] + [sep] + more);
    }
  }

  /** The empty list does not survive: it joins to "" and splits back to [""]. */
  lemma EmptyPartsBecomeOneEmptyPart(sep: char)
    ensures Split(Join([], sep), sep) == [""]
  {
  }

  /** Every separator inside a part adds to the separators the join already puts between the parts. */
  lemma {:induction false} JoinSeparators(parts: seq<string>, sep: char, i: nat)
    requires i < |parts|
    ensures multiset(Join(parts, sep))[sep] >= |parts| - 1 + multiset(parts[i])[sep]
    decreases |parts|
  {
    if |parts| > 1 {
      var rest := Join(parts[1..], sep);
      assert Join(parts, sep) == parts[0] + [sep] + rest;
      assert multiset(parts[0] + [sep] + rest) == multiset(parts[0]) + multiset([sep]) + multiset(rest);
      if i > 0 {
        JoinSeparators(parts[1..], sep, i - 1);
        assert parts[1..][i - 1] == parts[i];
      }
    }
  }

  /**
   * A part containing the separator never survives a join and a split:
   * the split yields more parts than were joined.
   */
  lemma SeparatorBreaksRoundTrip(parts: seq<string>, sep: char, i: nat)
    requires i < |parts| && sep in parts[i]
    ensures |Split(Join(parts, sep), sep)| > |parts|
    ensures Split(Join(parts, sep), sep) != parts
  {
    JoinSeparators(parts, sep, i);
  }

  /** A part containing the separator does not survive: ["a,b"] comes back as ["a", "b"]. */
  lemma SeparatorInPartSplitsIt()
    ensures Split(Join(["a,b"], ','), ',') == ["a", "b"]
  {
    assert Join(["a,b"], ',') == "a,b";
    SplitAfterPiece("a", "b", ',');
    assert "a,b" == "a" + [','] + "b";
    SplitSinglePiece("b", ',');
  }
}
