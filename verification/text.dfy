/** The string operations the pipeline performs on its parameters:
    `str.lower()`, `str.lstrip(chars)` and `str.split(sep)[-1]`. */
module Text {

  /** The case mapping of `str.lower()` on ASCII letters; every other
      character is left unchanged. */
  function LowerChar(c: char): char {
    if 'A' <= c <= 'Z' then (c as int - 'A' as int + 'a' as int) as char else c
  }

  function Lower(s: string): string {
    seq(|s|, i requires 0 <= i < |s| => LowerChar(s[i]))
  }

  predicate IsLower(s: string) {
    forall i :: 0 <= i < |s| ==> !('A' <= s[i] <= 'Z')
  }

  /** Reference definition of case-insensitive equality, character by character. */
  predicate EqualIgnoringCase(a: string, b: string) {
    |a| == |b| && forall i :: 0 <= i < |a| ==> LowerChar(a[i]) == LowerChar(b[i])
  }

  /** Lowering yields a lower-case string, so lowering twice changes nothing. */
  lemma LowerIsLower(s: string)
    ensures IsLower(Lower(s))
    ensures Lower(Lower(s)) == Lower(s)
  {
    assert forall i :: 0 <= i < |s| ==> Lower(Lower(s))[i] == Lower(s)[i];
  }

  /** Comparing the lowered string with a lower-case name is exactly a
      case-insensitive comparison with that name. */
  lemma LowerMatchesIgnoringCase(s: string, name: string)
    requires IsLower(name)
    ensures Lower(s) == name <==> EqualIgnoringCase(s, name)
  {
    if EqualIgnoringCase(s, name) {
      assert forall i :: 0 <= i < |s| ==> Lower(s)[i] == name[i];
    }
  }

  /** Two strings that differ only in case lower to the same string. */
  lemma LowerIgnoresCase(a: string, b: string)
    requires EqualIgnoringCase(a, b)
    ensures Lower(a) == Lower(b)
  {
    assert forall i :: 0 <= i < |a| ==> Lower(a)[i] == Lower(b)[i];
  }

  /** `s.lstrip(chars)`: drops every leading character that belongs to
      `chars`, not just one prefix occurrence. */
  function LStrip(s: string, chars: set<char>): (r: string)
    ensures |r| <= |s| && r == s[|s| - |r|..]
    ensures forall i :: 0 <= i < |s| - |r| ==> s[i] in chars
    ensures r == [] || r[0] !in chars
    decreases |s|
  {
    if |s| > 0 && s[0] in chars then LStrip(s[1..], chars) else s
  }

  /** The suffix LStrip keeps is the only one whose removed prefix consists of
      `chars` and which does not itself start with one of them. */
  lemma LStripUnique(s: string, chars: set<char>, k: nat)
    requires k <= |s|
    requires forall i :: 0 <= i < k ==> s[i] in chars
    requires k == |s| || s[k] !in chars
    ensures LStrip(s, chars) == s[k..]
  {
  }

  /** LStrip stops at or before the first character outside `chars`. */
  lemma LStripStopsAt(s: string, chars: set<char>, j: nat)
    requires j < |s| && s[j] !in chars
    ensures |s| - |LStrip(s, chars)| <= j
  {
  }

  /** Stripping twice strips nothing more. */
  lemma LStripIdempotent(s: string, chars: set<char>)
    ensures LStrip(LStrip(s, chars), chars) == LStrip(s, chars)
  {
  }

  /** `s.split(sep)`: the pieces between separators, always at least one. */
  function Split(s: string, sep: char): (parts: seq<string>)
    ensures |parts| >= 1
    decreases |s|
  {
    if |s| == 0 then [""]
    else
      var rest := Split(s[1..], sep);
      if s[0] == sep then [""] + rest
      else [[s[0]] + rest[0]] + rest[1..]
  }

  /** No piece of a split holds the separator. */
  lemma {:induction false} SplitPiecesNoSep(s: string, sep: char)
    ensures forall i :: 0 <= i < |Split(s, sep)| ==> sep !in Split(s, sep)[i]
    decreases |s|
  {
    if |s| > 0 {
      SplitPiecesNoSep(s[1..], sep);
      var rest := Split(s[1..], sep);
      if s[0] != sep {
        assert sep !in [s[0]] + rest[0];
        assert Split(s, sep) == [[s[0]] + rest[0]] + rest[1..];
        forall i | 1 <= i < |Split(s, sep)|
          ensures sep !in Split(s, sep)[i]
        {
          assert Split(s, sep)[i] == rest[i];
        }
      } else {
        assert Split(s, sep) == [""] + rest;
        forall i | 1 <= i < |Split(s, sep)|
          ensures sep !in Split(s, sep)[i]
        {
          assert Split(s, sep)[i] == rest[i - 1];
        }
      }
    }
  }

  /** `sep.join(parts)`, the inverse of Split. */
  function Join(parts: seq<string>, sep: char): string
    requires |parts| >= 1
  {
    if |parts| == 1 then parts[0] else parts[0] + [sep] + Join(parts[1..], sep)
  }

  /** Joining the pieces of a split gives back the original string. */
  lemma {:induction false} JoinSplit(s: string, sep: char)
    ensures Join(Split(s, sep), sep) == s
    decreases |s|
  {
    if |s| > 0 {
      var rest := Split(s[1..], sep);
      JoinSplit(s[1..], sep);
      if s[0] == sep {
        assert Split(s, sep)[1..] == rest;
      } else if |rest| > 1 {
        var parts := Split(s, sep);
        assert parts[1..] == rest[1..];
        assert Join(rest, sep) == rest[0] + [sep] + Join(rest[1..], sep);
      }
    }
  }

  /** A string without separators splits into itself alone. */
  lemma {:induction false} SplitNoSep(s: string, sep: char)
    requires sep !in s
    ensures Split(s, sep) == [s]
    decreases |s|
  {
    if |s| > 0 {
      SplitNoSep(s[1..], sep);
      assert [s[0]] + s[1..] == s;
    }
  }

  /** Splitting at a separator splits the two sides independently. */
  lemma {:induction false} SplitAtSep(a: string, b: string, sep: char)
    ensures Split(a + [sep] + b, sep) == Split(a, sep) + Split(b, sep)
    decreases |a|
  {
    if |a| == 0 {
      var s := a + [sep] + b;
      assert s[0] == sep && s[1..] == b;
    } else {
      SplitAtSep(a[1..], b, sep);
      SplitAtSepCons(a, b, sep);
    }
  }

  /** The inductive step of SplitAtSep: one more character in front. */
  lemma SplitAtSepCons(a: string, b: string, sep: char)
    requires |a| > 0
    requires Split(a[1..] + [sep] + b, sep) == Split(a[1..], sep) + Split(b, sep)
    ensures Split(a + [sep] + b, sep) == Split(a, sep) + Split(b, sep)
  {
    var a' := a[1..];
    var t := a' + [sep] + b;
    assert a == [a[0]] + a';
    assert a + [sep] + b == [a[0]] + t;
    SplitCons(a[0], t, sep);
    SplitCons(a[0], a', sep);
    GluePieces(a[0], Split(a', sep), Split(b, sep), sep);
  }

  /** Gluing a character onto the front of the pieces commutes with
      appending further pieces. */
  lemma GluePieces(c: char, ra: seq<string>, rb: seq<string>, sep: char)
    requires |ra| >= 1
    ensures (if c == sep then [""] + (ra + rb) else [[c] + (ra + rb)[0]] + (ra + rb)[1..]) ==
            (if c == sep then [""] + ra else [[c] + ra[0]] + ra[1..]) + rb
  {
    assert (ra + rb)[1..] == ra[1..] + rb;
  }

  /** One unfolding of Split at the front. */
  lemma SplitCons(c: char, t: string, sep: char)
    ensures Split([c] + t, sep) ==
      if c == sep then [""] + Split(t, sep) else [[c] + Split(t, sep)[0]] + Split(t, sep)[1..]
  {
    assert ([c] + t)[1..] == t;
  }

  /** Splitting a join of separator-free pieces gives back the pieces. */
  lemma {:induction false} SplitJoin(parts: seq<string>, sep: char)
    requires |parts| >= 1
    requires forall i :: 0 <= i < |parts| ==> sep !in parts[i]
    ensures Split(Join(parts, sep), sep) == parts
    decreases |parts|
  {
    SplitNoSep(parts[0], sep);
    if |parts| > 1 {
      SplitJoin(parts[1..], sep);
      SplitAtSep(parts[0], Join(parts[1..], sep), sep);
    }
  }

  /** The last piece is joined on after all the others. */
  lemma {:induction false} JoinSnoc(parts: seq<string>, sep: char)
    requires |parts| >= 2
    ensures Join(parts, sep) == Join(parts[..|parts| - 1], sep) + [sep] + parts[|parts| - 1]
    decreases |parts|
  {
    if |parts| > 2 {
      JoinSnoc(parts[1..], sep);
      assert parts[..|parts| - 1][1..] == parts[1..][..|parts| - 2];
    }
  }

  /** `s.split(sep)[-1]`: the text after the last separator. */
  function LastSegment(s: string, sep: char): string {
    var parts := Split(s, sep);
    parts[|parts| - 1]
  }

  /** The last segment holds no separator, ends `s`, and is either all of
      `s` or preceded there by a separator. */
  lemma LastSegmentShape(s: string, sep: char)
    ensures var last := LastSegment(s, sep);
      && sep !in last
      && |last| <= |s|
      && s[|s| - |last|..] == last
      && (last == s || (|last| < |s| && s[|s| - |last| - 1] == sep))
  {
    var parts := Split(s, sep);
    SplitPiecesNoSep(s, sep);
    JoinSplit(s, sep);
    if |parts| >= 2 {
      JoinSnoc(parts, sep);
    }
  }

  /** Whatever precedes the last separator does not affect the last segment. */
  lemma LastSegmentAfterSep(a: string, b: string, sep: char)
    requires sep !in b
    ensures LastSegment(a + [sep] + b, sep) == b
  {
    SplitAtSep(a, b, sep);
    SplitNoSep(b, sep);
  }

  /** Whatever precedes a separator does not affect the last segment. */
  lemma LastSegmentAppend(a: string, b: string, sep: char)
    ensures LastSegment(a + [sep] + b, sep) == LastSegment(b, sep)
  {
    SplitAtSep(a, b, sep);
  }

  /** Dropping a prefix that ends before the last segment keeps it. */
  lemma LastSegmentSuffix(s: string, k: nat, sep: char)
    requires k <= |s| - |LastSegment(s, sep)|
    ensures LastSegment(s[k..], sep) == LastSegment(s, sep)
  {
    var last := LastSegment(s, sep);
    LastSegmentShape(s, sep);
    var j := |s| - |last|;
    LastSegmentNoSep(last, sep);
    if k < j {
      assert s[k..] == s[k..j - 1] + [sep] + last;
      LastSegmentAppend(s[k..j - 1], last, sep);
    } else {
      assert s[k..] == last;
    }
  }

  /** Stripping leading characters keeps the last segment when that segment
      does not itself start with one of them. */
  lemma LastSegmentOfStripped(s: string, chars: set<char>, sep: char)
    requires LastSegment(s, sep) != [] && LastSegment(s, sep)[0] !in chars
    ensures LastSegment(LStrip(s, chars), sep) == LastSegment(s, sep)
  {
    var last := LastSegment(s, sep);
    var j := |s| - |last|;
    LastSegmentShape(s, sep);
    assert s[j] == last[0];
    LStripStopsAt(s, chars, j);
    LastSegmentSuffix(s, |s| - |LStrip(s, chars)|, sep);
  }

  /** A string without separators is its own last segment. */
  lemma LastSegmentNoSep(s: string, sep: char)
    requires sep !in s
    ensures LastSegment(s, sep) == s
  {
    SplitNoSep(s, sep);
  }
}
