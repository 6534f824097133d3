/**
 * The few string operations the back end relies on: `String.prototype.indexOf`
 * with a one-character needle, `split` and `join` with a one-character
 * separator, and ASCII character classes.
 */
module Text {

  /** Index of the first `c` in `s`, or `|s|` when `s` has none. */
  function IndexOf(s: string, c: char): (i: nat)
    ensures i <= |s|
    ensures i < |s| ==> s[i] == c
    ensures forall k :: 0 <= k < i ==> s[k] != c
  {
    if s == [] then 0
    else if s[0] == c then 0
    else 1 + IndexOf(s[1..], c)
  }

  /** The first-occurrence property determines the index. */
  lemma IndexOfUnique(s: string, c: char, i: nat)
    requires i <= |s|
    requires i < |s| ==> s[i] == c
    requires forall k :: 0 <= k < i ==> s[k] != c
    ensures IndexOf(s, c) == i
  {
  }

  /**
   * `s.split(c)`: the maximal pieces of `s` between occurrences of `c`.
   * As in JavaScript, the empty string splits into one empty piece.
   */
  function Split(s: string, c: char): (parts: seq<string>)
    ensures |parts| >= 1
    ensures forall k :: 0 <= k < |parts| ==> c !in parts[k]
    decreases |s|
  {
    var i := IndexOf(s, c);
    if i == |s| then [s]
    else [s[..i]] + Split(s[i + 1..], c)
  }

  /** `parts.join(c)`. */
  function Join(parts: seq<string>, c: char): string
  {
    if |parts| == 0 then ""
    else if |parts| == 1 then parts[0]
    else parts[0] + [c] + Join(parts[1..], c)
  }

  /** No piece contains the separator. */
  ghost predicate Unseparated(parts: seq<string>, c: char)
  {
    forall p :: p in parts ==> c !in p
  }

  /** Splitting a join gives the pieces back, provided none holds the separator. */
  lemma {:induction false} SplitJoin(parts: seq<string>, c: char)
    requires |parts| >= 1
    requires Unseparated(parts, c)
    ensures Split(Join(parts, c), c) == parts
  {
    var p := parts[0];
    assert p in parts;
    if |parts| == 1 {
      IndexOfUnique(p, c, |p|);
    } else {
      var rest := Join(parts[1..], c);
      var s := p + [c] + rest;
      assert s[|p|] == c;
      assert forall k :: 0 <= k < |p| ==> s[k] == p[k];
      IndexOfUnique(s, c, |p|);
      assert s[..|p|] == p;
      assert s[|p| + 1..] == rest;
      SplitJoin(parts[1..], c);
      assert Split(s, c) == [p] + parts[1..];
    }
  }

  /** Splitting `p + c + rest` yields every piece of splitting `rest`, whatever `p` holds. */
  lemma {:induction false} SplitKeepsTail(p: string, c: char, rest: string)
    ensures forall x :: x in Split(rest, c) ==> x in Split(p + [c] + rest, c)
    decreases |p|
  {
    var s := p + [c] + rest;
    assert s[|p|] == c;
    var i := SplitAtFirst(s, c);
    var later := s[i + 1..];
    if i == |p| {
      assert later == rest;
    } else {
      var p' := p[i + 1..];
      assert later == p' + [c] + rest;
      SplitKeepsTail(p', c, rest);
    }
  }

  /** A string holding `c` splits into the piece before its first `c` and the split of what follows. */
  lemma SplitAtFirst(s: string, c: char) returns (i: nat)
    requires c in s
    ensures i == IndexOf(s, c) && i < |s|
    ensures forall k :: 0 <= k < i ==> s[k] != c
    ensures Split(s, c) == [s[..i]] + Split(s[i + 1..], c)
    ensures forall x :: x in Split(s[i + 1..], c) ==> x in Split(s, c)
  {
    i := IndexOf(s, c);
  }

  /**
   * A piece without the separator survives a join followed by a split, even
   * when other pieces hold the separator and are cut apart.
   */
  lemma {:induction false} JoinSplitKeepsPiece(parts: seq<string>, c: char, q: string)
    requires q in parts && c !in q
    ensures q in Split(Join(parts, c), c)
    decreases |parts|
  {
    var p := parts[0];
    if |parts| == 1 {
      IndexOfUnique(p, c, |p|);
    } else {
      var rest := Join(parts[1..], c);
      var s := p + [c] + rest;
      if q == p {
        assert s[|p|] == c;
        assert forall k :: 0 <= k < |p| ==> s[k] == p[k];
        IndexOfUnique(s, c, |p|);
        assert s[..|p|] == p;
      } else {
        assert q in parts[1..];
        JoinSplitKeepsPiece(parts[1..], c, q);
        SplitKeepsTail(p, c, rest);
      }
    }
  }

  /** Joining a split gives the string back. */
  lemma {:induction false} JoinSplit(s: string, c: char)
    ensures Join(Split(s, c), c) == s
    decreases |s|
  {
    var i := IndexOf(s, c);
    if i < |s| {
      var tail := Split(s[i + 1..], c);
      JoinSplit(s[i + 1..], c);
      assert Split(s, c) == [s[..i]] + tail;
      assert ([s[..i]] + tail)[1..] == tail;
      assert s == s[..i] + [c] + s[i + 1..];
    }
  }

  predicate IsAsciiLetter(ch: char)
  {
    'a' <= ch <= 'z' || 'A' <= ch <= 'Z'
  }

  predicate IsAsciiDigit(ch: char)
  {
    '0' <= ch <= '9'
  }

  /** The character class `[a-zA-Z0-9]`. */
  predicate IsAsciiAlphanumeric(ch: char)
  {
    IsAsciiLetter(ch) || IsAsciiDigit(ch)
  }

  /** Lower-cases ASCII capitals and leaves every other character alone. */
  function LowerChar(ch: char): (r: char)
    ensures 'A' <= ch <= 'Z' ==> 'a' <= r <= 'z'
    ensures !('A' <= ch <= 'Z') ==> r == ch
  {
    if 'A' <= ch <= 'Z' then (ch as int - 'A' as int + 'a' as int) as char else ch
  }

  /**
   * `toLowerCase` on ASCII: each character lower-cased where it stands.
   * Only A-Z are mapped, unlike JavaScript's full Unicode mapping; the two
   * agree when the result is compared with "admin", since no character
   * outside ASCII lower-cases to a, d, m, i or n.
   */
  function ToLowerAscii(s: string): string
  {
    seq(|s|, k requires 0 <= k < |s| => LowerChar(s[k]))
  }

  /** Decimal rendering of a number, as a template literal interpolates it. */
  function IntToString(i: int): (r: string)
    ensures |r| > 0
    ensures i >= 0 ==> forall k :: 0 <= k < |r| ==> IsAsciiDigit(r[k])
  {
    if i < 0 then "-" + NatToString(-i) else NatToString(i)
  }

  function NatToString(n: nat): (r: string)
    ensures |r| > 0
    ensures forall k :: 0 <= k < |r| ==> IsAsciiDigit(r[k])
    decreases n
  {
    if n < 10 then [('0' as int + n) as char]
    else NatToString(n / 10) + [('0' as int + n % 10) as char]
  }
}
