/** Values and string helpers shared by every service: the optional and
    failing results of JavaScript calls, JavaScript truthiness, `String.prototype.trim`
    and `<` on strings, element by element. */
module Common {

  datatype Option<+T> = None | Some(value: T)

  /** How a service call fails: an `Error` thrown with a message, a
      `TypeError` raised by reading a property of `undefined`, or a promise
      rejected with a bare string. */
  datatype Failure = Thrown(message: string) | TypeError(property: string) | Rejected(reason: string)

  datatype Result<+T> = Ok(value: T) | Err(failure: Failure)

  /** `!x` is false for a present, non-empty string. */
  predicate Present(s: Option<string>) {
    s.Some? && s.value != ""
  }

  /** `!id` is false for a present, non-zero number. */
  predicate TruthyId(id: Option<int>) {
    id.Some? && id.value != 0
  }

  /** The characters `trim` removes: white space and line terminators. */
  predicate IsWhitespace(c: char) {
    c == ' ' || c == '\t' || c == '\n' || c == '\r' || c == '\U{000B}' || c == '\U{000C}'
    || c == '\U{00A0}' || c == '\U{1680}' || ('\U{2000}' <= c <= '\U{200A}')
    || c == '\U{2028}' || c == '\U{2029}' || c == '\U{202F}' || c == '\U{205F}'
    || c == '\U{3000}' || c == '\U{FEFF}'
  }

  predicate AllWhitespace(s: string) {
    forall i :: 0 <= i < |s| ==> IsWhitespace(s[i])
  }

  /** Number of leading white-space characters. */
  function LeadingSpace(s: string): (n: nat)
    ensures n <= |s|
    ensures AllWhitespace(s[..n])
    ensures n < |s| ==> !IsWhitespace(s[n])
  {
    if s == [] || !IsWhitespace(s[0]) then 0
    else
      var k := LeadingSpace(s[1..]);
      assert s[1..][..k] == s[1..k + 1];
      1 + k
  }

  /** Number of trailing white-space characters. */
  function TrailingSpace(s: string): (n: nat)
    ensures n <= |s|
    ensures AllWhitespace(s[|s| - n..])
    ensures n < |s| ==> !IsWhitespace(s[|s| - n - 1])
  {
    if s == [] || !IsWhitespace(s[|s| - 1]) then 0
    else
      var init := s[..|s| - 1];
      var k := TrailingSpace(init);
      assert s[|s| - (k + 1)..] == init[|init| - k..] + [s[|s| - 1]];
      1 + k
  }

  /** `s.trim()`: the part of `s` between its leading and trailing white space.
      The result is `s` with white space cut from both ends and nothing else. */
  function Trim(s: string): (r: string)
    ensures exists a, b :: 0 <= a <= b <= |s| && r == s[a..b]
                           && AllWhitespace(s[..a]) && AllWhitespace(s[b..])
    ensures r != "" ==> !IsWhitespace(r[0]) && !IsWhitespace(r[|r| - 1])
    ensures r == "" <==> AllWhitespace(s)
  {
    var a := LeadingSpace(s);
    var t := TrailingSpace(s[a..]);
    TrimBounds(s, a, s[a..], t);
    s[a..a + (|s| - a - t)]
  }

  /** What the two white-space counts of `trim` give about the cut: `a`
      leading characters of `s`, then `t` trailing characters of the rest. */
  lemma TrimBounds(s: string, a: nat, rest: string, t: nat)
    requires a <= |s| && AllWhitespace(s[..a]) && (a < |s| ==> !IsWhitespace(s[a]))
    requires rest == s[a..]
    requires t <= |rest| && AllWhitespace(rest[|rest| - t..])
    requires t < |rest| ==> !IsWhitespace(rest[|rest| - t - 1])
    ensures a + t <= |s|
    ensures AllWhitespace(s[..a]) && AllWhitespace(s[|s| - t..])
    ensures a + t < |s| ==> !IsWhitespace(s[a]) && !IsWhitespace(s[|s| - t - 1])
    ensures a + t == |s| <==> AllWhitespace(s)
  {
    assert rest[|rest| - t..] == s[|s| - t..];
    if a < |s| {
      TrimBoundsNonBlank(s, a, rest, t);
    } else {
      assert s[..a] == s;
    }
  }

  /** When `s` is not all white space, the cut keeps its first
      non-white-space character and ends on one. */
  lemma TrimBoundsNonBlank(s: string, a: nat, rest: string, t: nat)
    requires a < |s| && !IsWhitespace(s[a])
    requires rest == s[a..]
    requires t <= |rest| && AllWhitespace(rest[|rest| - t..])
    requires t < |rest| ==> !IsWhitespace(rest[|rest| - t - 1])
    ensures a + t < |s| && !IsWhitespace(s[|s| - t - 1]) && !AllWhitespace(s)
  {
    NonBlankRest(rest, t);
    assert rest[|rest| - t - 1] == s[|s| - t - 1];
  }

  lemma NonBlankRest(rest: string, t: nat)
    requires rest != [] && !IsWhitespace(rest[0])
    requires t <= |rest| && AllWhitespace(rest[|rest| - t..])
    ensures t < |rest|
  {
    if t == |rest| {
      assert false;
    }
  }

  /** Trimming twice is trimming once. */
  lemma TrimIdempotent(s: string)
    ensures Trim(Trim(s)) == Trim(s)
  {
    var r := Trim(s);
    if r != "" {
      assert LeadingSpace(r) == 0;
      assert TrailingSpace(r) == 0;
    }
  }

  /** `s?.trim() || null`: a missing or blank value becomes null. */
  function TrimOrNull(s: Option<string>): (r: Option<string>)
    ensures r.Some? <==> s.Some? && !AllWhitespace(s.value)
    ensures r.Some? ==> r.value == Trim(s.value) && r.value != ""
  {
    if s.None? then None
    else
      var t := Trim(s.value);
      if t == "" then None else Some(t)
  }

  lemma TrimOrNullIdempotent(s: Option<string>)
    ensures TrimOrNull(TrimOrNull(s)) == TrimOrNull(s)
  {
    if s.Some? {
      TrimIdempotent(s.value);
    }
  }

  /** Leading white space before a non-blank rest is counted exactly. */
  lemma {:induction false} LeadingSpacePadded(pre: string, rest: string)
    requires AllWhitespace(pre) && rest != [] && !IsWhitespace(rest[0])
    ensures LeadingSpace(pre + rest) == |pre|
  {
    if pre != [] {
      assert (pre + rest)[1..] == pre[1..] + rest;
      LeadingSpacePadded(pre[1..], rest);
    }
  }

  /** Trailing white space after a non-blank rest is counted exactly. */
  lemma {:induction false} TrailingSpacePadded(rest: string, post: string)
    requires AllWhitespace(post) && rest != [] && !IsWhitespace(rest[|rest| - 1])
    ensures TrailingSpace(rest + post) == |post|
  {
    if post == [] {
      assert rest + post == rest;
    } else {
      assert (rest + post)[..|rest + post| - 1] == rest + post[..|post| - 1];
      TrailingSpacePadded(rest, post[..|post| - 1]);
    }
  }

  /** `trim` gives back exactly the text between the padding. */
  lemma TrimPadded(pre: string, core: string, post: string)
    requires AllWhitespace(pre) && AllWhitespace(post)
    requires core != [] && !IsWhitespace(core[0]) && !IsWhitespace(core[|core| - 1])
    ensures Trim(pre + core + post) == core
  {
    var s := pre + core + post;
    assert s == pre + (core + post);
    LeadingSpacePadded(pre, core + post);
    assert s[|pre|..] == core + post;
    TrailingSpacePadded(core, post);
    assert s[|pre|..|pre| + |core|] == core;
  }

  /** JavaScript `a < b` on two strings, element by element, a proper prefix
      coming first. The elements are Dafny characters, which are Unicode
      scalar values, where JavaScript compares UTF-16 code units: the two
      orders differ only when a character above U+FFFF meets one from
      U+E000 to U+FFFF. */
  predicate StringLess(a: string, b: string) {
    if b == [] then false
    else if a == [] then true
    else if a[0] != b[0] then a[0] < b[0]
    else StringLess(a[1..], b[1..])
  }

  /** The string ordering is a strict order: never both ways. */
  lemma {:induction false} StringLessAsymmetric(a: string, b: string)
    ensures !(StringLess(a, b) && StringLess(b, a))
  {
    if a != [] && b != [] && a[0] == b[0] {
      StringLessAsymmetric(a[1..], b[1..]);
    }
  }

  /** Two different strings are ordered one way or the other. */
  lemma {:induction false} StringLessTotal(a: string, b: string)
    requires a != b
    ensures StringLess(a, b) || StringLess(b, a)
  {
    if a != [] && b != [] && a[0] == b[0] {
      assert a == [a[0]] + a[1..] && b == [b[0]] + b[1..];
      StringLessTotal(a[1..], b[1..]);
    }
  }

  /** `String.prototype.toLowerCase` on the ASCII letters. */
  function LowerChar(c: char): (r: char)
    ensures 'A' <= c <= 'Z' ==> r as int == c as int + 32
    ensures !('A' <= c <= 'Z') ==> r == c
  {
    if 'A' <= c <= 'Z' then (c as int + 32) as char else c
  }

  function Lower(s: string): (r: string)
    ensures |r| == |s|
    ensures forall i :: 0 <= i < |s| ==> r[i] == LowerChar(s[i])
  {
    if s == [] then [] else [LowerChar(s[0])] + Lower(s[1..])
  }

  /** The elements of `s` that `keep` accepts, in order; a SQL `DELETE ... WHERE`
      keeps exactly the rows its condition rejects. */
  function Filter<T(!new)>(s: seq<T>, keep: T -> bool): (r: seq<T>)
    ensures forall x :: multiset(r)[x] == if keep(x) then multiset(s)[x] else 0
    ensures |r| <= |s|
  {
    if s == [] then []
    else
      assert s == [s[0]] + s[1..];
      var rest := Filter(s[1..], keep);
      if keep(s[0]) then [s[0]] + rest else rest
  }

  /** Filtering a sequence with a first element decides that element, then
      filters the rest. */
  lemma FilterCons<T(!new)>(x: T, s: seq<T>, keep: T -> bool)
    ensures Filter([x] + s, keep) == (if keep(x) then [x] else []) + Filter(s, keep)
  {
    assert ([x] + s)[1..] == s;
  }

  /** Filtering twice with the same test is filtering once: a repeated
      `DELETE ... WHERE` removes nothing more. */
  lemma {:induction false} FilterIdempotent<T(!new)>(s: seq<T>, keep: T -> bool)
    ensures Filter(Filter(s, keep), keep) == Filter(s, keep)
  {
    if s != [] {
      FilterIdempotent(s[1..], keep);
      if keep(s[0]) {
        var r := Filter(s, keep);
        assert r == [s[0]] + Filter(s[1..], keep);
        assert r[1..] == Filter(s[1..], keep);
      }
    }
  }
}
