/** The JavaScript string operations the server relies on: `trim()` (applied
    by the schemas' `trim: true`), truthiness and `a || b` on strings,
    `startsWith`, and the second field of `split(' ')`. */
module Text {
  import opened Common

  /** The characters `String.prototype.trim` removes: JavaScript's
      WhiteSpace and LineTerminator code points. */
  predicate IsSpace(c: char) {
    || ('\U{0009}' <= c <= '\U{000D}') || c == '\U{0020}' || c == '\U{00A0}'
    || c == '\U{1680}' || ('\U{2000}' <= c <= '\U{200A}') || c == '\U{2028}'
    || c == '\U{2029}' || c == '\U{202F}' || c == '\U{205F}' || c == '\U{3000}'
    || c == '\U{FEFF}'
  }

  /** A string with no white space at either end. */
  predicate IsTrimmed(s: string) {
    s == [] || (!IsSpace(s[0]) && !IsSpace(s[|s| - 1]))
  }

  /** How many white-space characters open s. */
  function LeadingSpaces(s: string): (k: nat)
    ensures k <= |s|
    ensures forall i :: 0 <= i < k ==> IsSpace(s[i])
    ensures k < |s| ==> !IsSpace(s[k])
  {
    if |s| == 0 || !IsSpace(s[0]) then 0 else 1 + LeadingSpaces(s[1..])
  }

  /** How many white-space characters close s. */
  function TrailingSpaces(s: string): (k: nat)
    ensures k <= |s|
    ensures forall i :: |s| - k <= i < |s| ==> IsSpace(s[i])
    ensures k < |s| ==> !IsSpace(s[|s| - 1 - k])
  {
    if |s| == 0 || !IsSpace(s[|s| - 1]) then 0 else 1 + TrailingSpaces(s[..|s| - 1])
  }

  /** `s.trim()`: s without its leading and trailing white space. */
  function Trim(s: string): (r: string)
    ensures IsTrimmed(r)
    ensures exists a, b :: (0 <= a <= b <= |s| && r == s[a..b]
      && (forall i :: 0 <= i < a ==> IsSpace(s[i]))
      && (forall i :: b <= i < |s| ==> IsSpace(s[i])))
  {
    var a := LeadingSpaces(s);
    var t := s[a..];
    var k := TrailingSpaces(t);
    TrimWitness(s, a, t, k);
    t[..|t| - k]
  }

  /** Dropping a leading spaces and then k trailing spaces of s leaves a
      trimmed slice of s with only white space around it. */
  lemma TrimWitness(s: string, a: nat, t: string, k: nat)
    requires a <= |s| && (forall i :: 0 <= i < a ==> IsSpace(s[i])) && (a < |s| ==> !IsSpace(s[a]))
    requires t == s[a..] && k <= |t|
    requires (forall i :: |t| - k <= i < |t| ==> IsSpace(t[i])) && (k < |t| ==> !IsSpace(t[|t| - 1 - k]))
    ensures IsTrimmed(t[..|t| - k])
    ensures var b := a + |t| - k;
      && 0 <= a <= b <= |s| && t[..|t| - k] == s[a..b]
      && (forall i :: 0 <= i < a ==> IsSpace(s[i]))
      && (forall i :: b <= i < |s| ==> IsSpace(s[i]))
  {
    var b := a + |t| - k;
    assert t[..|t| - k] == s[a..b];
    assert forall i :: b <= i < |s| ==> s[i] == t[i - a];
  }

  /** Trimming leaves a trimmed string as it is, so `trim` is idempotent. */
  lemma TrimmedIsFixed(s: string)
    requires IsTrimmed(s)
    ensures Trim(s) == s
  {
    assert LeadingSpaces(s) == 0;
    assert s[0..] == s;
    assert TrailingSpaces(s) == 0;
  }

  lemma TrimIdempotent(s: string)
    ensures Trim(Trim(s)) == Trim(s)
  {
    TrimmedIsFixed(Trim(s));
  }

  /** JavaScript truthiness of a string: only the empty string is falsy. */
  predicate Truthy(s: string) { s != [] }

  /** `given || current` on strings: the given value when truthy, else the current one. */
  function OrElse(given: string, current: string): (r: string)
    ensures Truthy(given) ==> r == given
    ensures !Truthy(given) ==> r == current
  {
    if Truthy(given) then given else current
  }

  predicate StartsWith(s: string, prefix: string) {
    |prefix| <= |s| && s[..|prefix|] == prefix
  }

  /** s is head, a space, field, then either nothing or more text starting
      with a space; neither head nor field contains a space. */
  ghost predicate SplitsAround(s: string, head: string, field: string, tail: string) {
    && s == head + " " + field + tail
    && ' ' !in head && ' ' !in field
    && (tail == [] || tail[0] == ' ')
  }

  /** `s.split(' ')[1]`: the text between the first and the second space
      (or the end), or None (`undefined`) when s has no space at all. */
  function SecondField(s: string): (r: Option<string>)
    ensures r.None? <==> ' ' !in s
    ensures r.Some? ==> exists head, tail :: SplitsAround(s, head, r.value, tail)
  {
    match FindFirst(s, (c: char) => c == ' ')
    case None => None
    case Some(i) =>
      var rest := s[i + 1..];
      var j := match FindFirst(rest, (c: char) => c == ' ') case None => |rest| case Some(j) => j;
      SplitWitness(s, i, rest, j);
      Some(rest[..j])
  }

  /** Cutting s at its first space i and at the next space j after it
      splits it around the second field. */
  lemma SplitWitness(s: string, i: nat, rest: string, j: nat)
    requires i < |s| && s[i] == ' ' && forall m :: 0 <= m < i ==> s[m] != ' '
    requires rest == s[i + 1..]
    requires j <= |rest| && forall m :: 0 <= m < j ==> rest[m] != ' '
    requires j == |rest| || rest[j] == ' '
    ensures SplitsAround(s, s[..i], rest[..j], rest[j..])
  {
    var head, field, tail := s[..i], rest[..j], rest[j..];
    assert s == head + " " + field + tail;
    assert ' ' !in head by {
      forall m | 0 <= m < |head| ensures head[m] != ' ' { assert head[m] == s[m]; }
    }
    assert ' ' !in field by {
      forall m | 0 <= m < |field| ensures field[m] != ' ' { assert field[m] == rest[m]; }
    }
  }
}
