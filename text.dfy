/** String operations the search handler relies on: ASCII case folding, the
    case-insensitive literal match that stands for a `$regex` filter with the
    "i" option, and `String.prototype.split` on a one-character separator. */
module Text {

  /** ASCII lower-casing of one character; every other character is kept.
      The first two ensures restate the definition for callers; the third,
      that no upper-case letter remains, is what idempotence rests on. */
  function LowerChar(c: char): (d: char)
    ensures 'A' <= c <= 'Z' ==> d as int == c as int + 32
    ensures !('A' <= c <= 'Z') ==> d == c
    ensures !('A' <= d <= 'Z')
  {
    if 'A' <= c <= 'Z' then (c as int + 32) as char else c
  }

  function Lower(s: string): (r: string)
    ensures |r| == |s|
  {
    seq(|s|, i requires 0 <= i < |s| => LowerChar(s[i]))
  }

  /** Lower-casing is idempotent. */
  lemma LowerIdempotent(s: string)
    ensures Lower(Lower(s)) == Lower(s)
  {
    forall i | 0 <= i < |s| ensures Lower(Lower(s))[i] == Lower(s)[i] {
      assert !('A' <= Lower(s)[i] <= 'Z');
    }
  }

  /** Lower-casing commutes with taking a slice. */
  lemma LowerSlice(s: string, i: nat, j: nat)
    requires i <= j <= |s|
    ensures Lower(s)[i..j] == Lower(s[i..j])
  {
  }

  /** `pattern` occurs in `text` at offset `i`, ignoring ASCII case. */
  predicate MatchAt(text: string, pattern: string, i: nat) {
    i + |pattern| <= |text| && Lower(text[i..i + |pattern|]) == Lower(pattern)
  }

  /** `pattern` occurs somewhere in `text`, ignoring ASCII case: an unanchored
      case-insensitive match of a pattern without metacharacters. */
  predicate ContainsIgnoreCase(text: string, pattern: string) {
    exists i: nat | i <= |text| :: MatchAt(text, pattern, i)
  }

  /** A literal occurrence is found. */
  lemma {:induction false} LiteralOccurrenceMatches(before: string, pattern: string, after: string)
    ensures ContainsIgnoreCase(before + pattern + after, pattern)
  {
    var text := before + pattern + after;
    assert text[|before|..|before| + |pattern|] == pattern;
    assert MatchAt(text, pattern, |before|);
  }

  /** The match does not depend on the case of either argument. */
  lemma {:induction false} ContainsIgnoresCase(text: string, pattern: string)
    ensures ContainsIgnoreCase(text, pattern) <==> ContainsIgnoreCase(Lower(text), Lower(pattern))
  {
    LowerIdempotent(pattern);
    if ContainsIgnoreCase(text, pattern) {
      var i: nat :| i <= |text| && MatchAt(text, pattern, i);
      LowerSlice(text, i, i + |pattern|);
      LowerIdempotent(text[i..i + |pattern|]);
      assert MatchAt(Lower(text), Lower(pattern), i);
    }
    if ContainsIgnoreCase(Lower(text), Lower(pattern)) {
      var i: nat :| i <= |Lower(text)| && MatchAt(Lower(text), Lower(pattern), i);
      LowerSlice(text, i, i + |pattern|);
      LowerIdempotent(text[i..i + |pattern|]);
      assert MatchAt(text, pattern, i);
    }
  }

  /** The pattern holds no regular-expression metacharacter, so a `$regex`
      match of it is a literal substring match. */
  predicate NoMeta(pattern: string) {
    forall i :: 0 <= i < |pattern| ==> pattern[i] !in "\\^$.|?*+()[]{}"
  }

  /** Lower-casing cannot introduce a metacharacter. */
  lemma LowerKeepsNoMeta(pattern: string)
    requires NoMeta(pattern)
    ensures NoMeta(Lower(pattern))
  {
    forall i | 0 <= i < |pattern| ensures Lower(pattern)[i] !in "\\^$.|?*+()[]{}" {
      assert Lower(pattern)[i] == pattern[i] || 'a' <= Lower(pattern)[i] <= 'z';
    }
  }

  /** The pieces joined back with the separator between consecutive pieces
      (`Array.prototype.join`). */
  function Join(parts: seq<string>, sep: char): string {
    if parts == [] then ""
    else if |parts| == 1 then parts[0]
    else parts[0] + [sep] + Join(parts[1..], sep)
  }

  /** `s.split(sep)`: the maximal separator-free pieces between separators. There
      is always at least one piece; the empty string splits into one empty piece,
      and adjacent separators give empty pieces. */
  function Split(s: string, sep: char): (parts: seq<string>)
    ensures |parts| >= 1
    ensures forall p :: p in parts ==> sep !in p
    ensures Join(parts, sep) == s
  {
    if s == [] then [""]
    else
      var rest := Split(s[1..], sep);
      if s[0] == sep then
        assert ([""] + rest)[1..] == rest;
        [""] + rest
      else
        var first := [s[0]] + rest[0];
        assert ([first] + rest[1..])[1..] == rest[1..];
        assert s == [s[0]] + s[1..];
        [first] + rest[1..]
  }

  /** A separator-free string splits into itself. */
  lemma {:induction false} SplitNoSeparator(s: string, sep: char)
    requires sep !in s
    ensures Split(s, sep) == [s]
  {
  }

  /** Splitting a separator-free piece followed by the separator. */
  lemma {:induction false} SplitAfterPiece(piece: string, sep: char, rest: string)
    requires sep !in piece
    ensures Split(piece + [sep] + rest, sep) == [piece] + Split(rest, sep)
  {
    if piece == [] {
      assert piece + [sep] + rest == [sep] + rest;
      assert ([sep] + rest)[1..] == rest;
    } else {
      var s := piece + [sep] + rest;
      assert s[0] == piece[0];
      assert s[1..] == piece[1..] + [sep] + rest;
      SplitAfterPiece(piece[1..], sep, rest);
      assert [piece[0]] + piece[1..] == piece;
    }
  }

  /** Split inverts Join on separator-free pieces. */
  lemma {:induction false} SplitJoin(parts: seq<string>, sep: char)
    requires |parts| >= 1
    requires forall p :: p in parts ==> sep !in p
    ensures Split(Join(parts, sep), sep) == parts
  {
    if |parts| == 1 {
      SplitNoSeparator(parts[0], sep);
    } else {
      assert forall p :: p in parts[1..] ==> p in parts;
      SplitJoin(parts[1..], sep);
      SplitAfterPiece(parts[0], sep, Join(parts[1..], sep));
    }
  }
}
