/** String facts the builtins need: the byte length Go's `len` reports for a
    string, and strings.Split. Dafny strings are sequences of Unicode scalar
    values; Go strings are their UTF-8 bytes. */
module Text {

  /** Bytes in the UTF-8 encoding of one scalar value. */
  function Utf8Width(c: char): (w: nat)
    ensures 1 <= w <= 4
    ensures w == 1 <==> c as int < 0x80
  {
    if c as int < 0x80 then 1
    else if c as int < 0x800 then 2
    else if c as int < 0x1_0000 then 3
    else 4
  }

  /** Bytes in the UTF-8 encoding of a string: what Go's `len` returns. */
  function Utf8Length(s: string): (n: nat)
    ensures |s| <= n <= 4 * |s|
  {
    if s == [] then 0 else Utf8Width(s[0]) + Utf8Length(s[1..])
  }

  /** Text made only of ASCII characters has one byte per character. */
  lemma {:induction false} AsciiLength(s: string)
    requires forall i :: 0 <= i < |s| ==> s[i] as int < 0x80
    ensures Utf8Length(s) == |s|
  {
    if s != [] {
      AsciiLength(s[1..]);
    }
  }

  lemma {:induction false} Utf8LengthConcat(a: string, b: string)
    ensures Utf8Length(a + b) == Utf8Length(a) + Utf8Length(b)
  {
    if a != [] {
      assert (a + b)[0] == a[0];
      assert (a + b)[1..] == a[1..] + b;
      Utf8LengthConcat(a[1..], b);
    } else {
      assert a + b == b;
    }
  }

  /** sep occurs in s at position i. */
  predicate OccursAt(s: string, sep: string, i: nat) {
    i + |sep| <= |s| && s[i..i + |sep|] == sep
  }

  predicate Contains(s: string, sep: string) {
    exists i: nat :: i <= |s| && OccursAt(s, sep, i)
  }

  /** strings.Join(parts, sep). */
  function Join(parts: seq<string>, sep: string): string {
    if parts == [] then ""
    else if |parts| == 1 then parts[0]
    else parts[0] + sep + Join(parts[1..], sep)
  }

  /** strings.Split(s, sep) for a non-empty separator: the pieces between the
      leftmost non-overlapping occurrences of sep. There is always at least one
      piece; the empty string gives [""]. */
  function SplitOn(s: string, sep: string): (parts: seq<string>)
    requires sep != []
    ensures |parts| >= 1
    decreases |s|
  {
    if |s| < |sep| then [s]
    else if s[..|sep|] == sep then [""] + SplitOn(s[|sep|..], sep)
    else
      var rest := SplitOn(s[1..], sep);
      [[s[0]] + rest[0]] + rest[1..]
  }

  /** strings.Split(s, "") on valid UTF-8: one piece per character, and no
      pieces for the empty string. */
  function Explode(s: string): (parts: seq<string>)
    ensures |parts| == |s|
    ensures forall i :: 0 <= i < |parts| ==> parts[i] == [s[i]]
  {
    seq(|s|, i requires 0 <= i < |s| => [s[i]])
  }

  /** strings.Split: the pieces always join back to s; a non-empty separator
      gives at least one piece, the empty separator one piece per character. */
  function Split(s: string, sep: string): (parts: seq<string>)
    ensures Join(parts, sep) == s
    ensures sep != [] ==> |parts| >= 1 && forall k :: 0 <= k < |parts| ==> !Contains(parts[k], sep)
    ensures sep == [] ==> parts == Explode(s)
    ensures sep != [] ==> forall i :: 0 <= i < |parts[0]| ==> !OccursAt(s, sep, i)
    ensures sep != [] && |parts| > 1 ==>
      OccursAt(s, sep, |parts[0]|) && parts[1..] == SplitOn(s[|parts[0]| + |sep|..], sep)
  {
    if sep == [] then
      JoinExplode(s);
      Explode(s)
    else
      JoinSplitOn(s, sep);
      PiecesAvoidSeparator(s, sep);
      SplitOnLeftmost(s, sep);
      SplitOn(s, sep)
  }

  /** A string in which the separator does not occur is one piece. */
  lemma {:induction false} SplitOnWithoutSeparator(s: string, sep: string)
    requires sep != []
    requires !Contains(s, sep)
    ensures SplitOn(s, sep) == [s]
    decreases |s|
  {
    if |s| >= |sep| {
      assert OccursAt(s, sep, 0) <==> s[..|sep|] == sep;
      assert !OccursAt(s, sep, 0);
      forall i: nat | i <= |s[1..]| && OccursAt(s[1..], sep, i) ensures false {
        assert s[1..][i..i + |sep|] == s[i + 1..i + 1 + |sep|];
        assert OccursAt(s, sep, i + 1);
      }
      SplitOnWithoutSeparator(s[1..], sep);
      assert s == [s[0]] + s[1..];
    }
  }

  /** A string without the character c is one piece when split on c. */
  lemma SplitOnAbsentChar(s: string, c: char)
    requires forall i :: 0 <= i < |s| ==> s[i] != c
    ensures SplitOn(s, [c]) == [s]
  {
    forall i: nat | i <= |s| ensures !OccursAt(s, [c], i) {
      if i + 1 <= |s| {
        assert s[i..i + 1][0] == s[i];
      }
    }
    SplitOnWithoutSeparator(s, [c]);
  }

  lemma JoinCons(p: string, ps: seq<string>, sep: string)
    requires ps != []
    ensures Join([p] + ps, sep) == p + sep + Join(ps, sep)
  {
    assert ([p] + ps)[1..] == ps;
  }

  /** Gluing a character onto the first piece glues it onto the joined text. */
  lemma JoinGlueFirst(c: char, rest: seq<string>, sep: string)
    requires rest != []
    ensures Join([[c] + rest[0]] + rest[1..], sep) == [c] + Join(rest, sep)
  {
    if |rest| > 1 {
      JoinCons([c] + rest[0], rest[1..], sep);
      JoinCons(rest[0], rest[1..], sep);
      assert rest == [rest[0]] + rest[1..];
    }
  }

  /** Joining the pieces with the separator gives the string back. */
  lemma {:induction false} JoinSplitOn(s: string, sep: string)
    requires sep != []
    ensures Join(SplitOn(s, sep), sep) == s
    decreases |s|
  {
    if |s| < |sep| {
    } else if s[..|sep|] == sep {
      assert SplitOn(s, sep) == [""] + SplitOn(s[|sep|..], sep);
      JoinSplitOn(s[|sep|..], sep);
      JoinCons("", SplitOn(s[|sep|..], sep), sep);
      assert s == sep + s[|sep|..];
    } else {
      var rest := SplitOn(s[1..], sep);
      assert SplitOn(s, sep) == [[s[0]] + rest[0]] + rest[1..];
      JoinSplitOn(s[1..], sep);
      JoinGlueFirst(s[0], rest, sep);
      assert s == [s[0]] + s[1..];
    }
  }

  /** The first piece is a prefix of the string. */
  lemma FirstPieceIsPrefix(s: string, sep: string)
    requires sep != []
    ensures SplitOn(s, sep)[0] <= s
  {
    var parts := SplitOn(s, sep);
    JoinSplitOn(s, sep);
    if |parts| > 1 {
      assert Join(parts, sep) == parts[0] + (sep + Join(parts[1..], sep));
    }
  }

  /** No piece contains the separator. */
  lemma {:induction false} PiecesAvoidSeparator(s: string, sep: string)
    requires sep != []
    ensures forall k :: 0 <= k < |SplitOn(s, sep)| ==> !Contains(SplitOn(s, sep)[k], sep)
    decreases |s|
  {
    var parts := SplitOn(s, sep);
    if |s| < |sep| {
      assert parts == [s];
      forall i: nat ensures !OccursAt(s, sep, i) { }
    } else if s[..|sep|] == sep {
      PiecesAvoidSeparator(s[|sep|..], sep);
      var rest := SplitOn(s[|sep|..], sep);
      assert parts == [""] + rest;
      forall k | 0 <= k < |parts| ensures !Contains(parts[k], sep) {
        if k == 0 {
          forall i: nat ensures !OccursAt("", sep, i) { }
        } else {
          assert parts[k] == rest[k - 1];
        }
      }
    } else {
      PiecesAvoidSeparator(s[1..], sep);
      var rest := SplitOn(s[1..], sep);
      FirstPieceIsPrefix(s[1..], sep);
      var head := [s[0]] + rest[0];
      assert parts == [head] + rest[1..];
      assert head <= s;
      forall k | 0 <= k < |parts| ensures !Contains(parts[k], sep) {
        if k == 0 {
          forall i: nat ensures !OccursAt(head, sep, i) {
            if i != 0 && OccursAt(head, sep, i) {
              assert head[i..i + |sep|] == rest[0][i - 1..i - 1 + |sep|];
              assert OccursAt(rest[0], sep, i - 1);
            }
          }
        } else {
          assert parts[k] == rest[k];
        }
      }
    }
  }

  /** With the empty separator, the one-character pieces join back to the string. */
  lemma {:induction false} JoinExplode(s: string)
    ensures Join(Explode(s), "") == s
    decreases |s|
  {
    if |s| > 1 {
      JoinExplode(s[1..]);
      assert Explode(s)[1..] == Explode(s[1..]);
      assert s == [s[0]] + s[1..];
    } else if |s| == 1 {
      assert s == [s[0]];
      assert Explode(s) == [s];
    }
  }

  /** The split is leftmost: the first piece runs up to the first occurrence of
      the separator, and the remaining pieces are the split of what follows it. */
  lemma {:induction false} SplitOnLeftmost(s: string, sep: string)
    requires sep != []
    ensures forall i :: 0 <= i < |SplitOn(s, sep)[0]| ==> !OccursAt(s, sep, i)
    ensures |SplitOn(s, sep)| > 1 ==>
      var k := |SplitOn(s, sep)[0]|;
      OccursAt(s, sep, k) && SplitOn(s, sep)[1..] == SplitOn(s[k + |sep|..], sep)
    decreases |s|
  {
    var parts := SplitOn(s, sep);
    if |s| < |sep| {
    } else if s[..|sep|] == sep {
      assert parts == [""] + SplitOn(s[|sep|..], sep);
      assert OccursAt(s, sep, 0);
    } else {
      var rest := SplitOn(s[1..], sep);
      SplitOnLeftmost(s[1..], sep);
      assert parts == [[s[0]] + rest[0]] + rest[1..];
      assert |parts[0]| == 1 + |rest[0]|;
      forall i | 0 <= i < |parts[0]| ensures !OccursAt(s, sep, i) {
        if i > 0 && OccursAt(s, sep, i) {
          assert s[1..][i - 1..i - 1 + |sep|] == s[i..i + |sep|];
          assert OccursAt(s[1..], sep, i - 1);
        }
      }
      if |parts| > 1 {
        var k := |rest[0]|;
        assert s[1..][k..k + |sep|] == s[k + 1..k + 1 + |sep|];
        assert s[1..][k + |sep|..] == s[k + 1 + |sep|..];
        assert parts[1..] == rest[1..];
      }
    }
  }
}
