/** The comma-joined id columns the persistence layer returns:
    `GROUP_CONCAT(id, ',')` on the way out of SQLite, and
    `split(',').map(parseInt)` in the services that read them. */
module CommaList {
  import opened Common

  function DigitChar(d: nat): (c: char)
    requires d < 10
    ensures '0' <= c <= '9'
  {
    (d + '0' as int) as char
  }

  function DigitValue(c: char): (d: nat)
    requires '0' <= c <= '9'
    ensures d < 10
  {
    c as int - '0' as int
  }

  predicate IsDigits(s: string) {
    |s| > 0 && forall i :: 0 <= i < |s| ==> '0' <= s[i] <= '9'
  }

  /** The decimal numeral of `n`, as `String(n)` writes it. */
  function NatToString(n: nat): (s: string)
    ensures IsDigits(s)
  {
    if n < 10 then [DigitChar(n)] else NatToString(n / 10) + [DigitChar(n % 10)]
  }

  /** The value of a run of decimal digits. */
  function DigitsValue(s: string): nat
    requires forall i :: 0 <= i < |s| ==> '0' <= s[i] <= '9'
  {
    if s == [] then 0 else DigitsValue(s[..|s| - 1]) * 10 + DigitValue(s[|s| - 1])
  }

  lemma {:induction false} NatRoundTrip(n: nat)
    ensures DigitsValue(NatToString(n)) == n
  {
    if n >= 10 {
      var s := NatToString(n);
      assert s[..|s| - 1] == NatToString(n / 10);
      NatRoundTrip(n / 10);
    }
  }

  /** `String(i)` for an integer, a leading '-' for a negative one. */
  function IntToString(i: int): (s: string)
    ensures IsIntLiteral(s)
  {
    if i < 0 then "-" + NatToString(-i) else NatToString(i)
  }

  predicate IsIntLiteral(s: string) {
    IsDigits(s) || (|s| > 1 && s[0] == '-' && IsDigits(s[1..]))
  }

  /** `parseInt(s)` on a decimal integer literal. */
  function ParseInt(s: string): int
    requires IsIntLiteral(s)
  {
    if s[0] == '-' then -(DigitsValue(s[1..]) as int) else DigitsValue(s)
  }

  lemma IntRoundTrip(i: int)
    ensures ParseInt(IntToString(i)) == i
  {
    if i < 0 {
      assert IntToString(i)[1..] == NatToString(-i);
      NatRoundTrip(-i);
    } else {
      NatRoundTrip(i);
    }
  }

  /** The ids' numerals joined by commas. */
  function JoinIds(ids: seq<int>): string
    requires |ids| > 0
  {
    if |ids| == 1 then IntToString(ids[0]) else IntToString(ids[0]) + "," + JoinIds(ids[1..])
  }

  /** `GROUP_CONCAT(id, ',')`: NULL for a group without values. */
  function GroupConcat(ids: seq<int>): Option<string> {
    if ids == [] then None else Some(JoinIds(ids))
  }

  /** `pieces.join(',')`. */
  function JoinPieces(pieces: seq<string>): string
    requires |pieces| >= 1
  {
    if |pieces| == 1 then pieces[0] else pieces[0] + "," + JoinPieces(pieces[1..])
  }

  /** Putting a character in front of the first piece puts it in front of
      the joined text. */
  lemma JoinPiecesCons(c: char, t: seq<string>)
    requires |t| >= 1
    ensures JoinPieces([[c] + t[0]] + t[1..]) == [c] + JoinPieces(t)
  {
    if |t| == 1 {
      assert [[c] + t[0]] + t[1..] == [[c] + t[0]];
    } else {
      assert t == [t[0]] + t[1..];
      JoinPiecesConsLong(c, t[0], t[1..]);
    }
  }

  lemma JoinPiecesConsLong(c: char, a: string, rest: seq<string>)
    requires |rest| >= 1
    ensures JoinPieces([[c] + a] + rest) == [c] + JoinPieces([a] + rest)
  {
    var r := [[c] + a] + rest;
    var u := [a] + rest;
    assert r[1..] == rest && u[1..] == rest;
    var j := JoinPieces(rest);
    assert JoinPieces(r) == ([c] + a) + "," + j;
    assert JoinPieces(u) == a + "," + j;
    ConsRegroup(c, a, j);
  }

  lemma ConsRegroup(c: char, a: string, j: string)
    ensures ([c] + a) + "," + j == [c] + (a + "," + j)
  {
  }

  /** `s.split(',')`: the pieces between commas, always at least one. */
  function Split(s: string): (r: seq<string>)
    ensures |r| >= 1
  {
    if s == [] then [""]
    else if s[0] == ',' then [""] + Split(s[1..])
    else
      var t := Split(s[1..]);
      [[s[0]] + t[0]] + t[1..]
  }

  /** No piece holds a comma, and joined with commas the pieces give the
      text back. */
  lemma {:induction false} SplitJoinsBack(s: string)
    ensures forall p :: p in Split(s) ==> ',' !in p
    ensures JoinPieces(Split(s)) == s
  {
    if s != [] {
      var t := Split(s[1..]);
      SplitJoinsBack(s[1..]);
      assert s == [s[0]] + s[1..];
      if s[0] == ',' {
        assert ([""] + t)[1..] == t;
      } else {
        JoinPiecesCons(s[0], t);
        assert t[0] in t;
        assert forall p :: p in t[1..] ==> p in t;
      }
    }
  }

  lemma {:induction false} SplitPiece(a: string, rest: Option<string>)
    requires ',' !in a
    ensures rest.None? ==> Split(a) == [a]
    ensures rest.Some? ==> Split(a + "," + rest.value) == [a] + Split(rest.value)
  {
    if a != [] {
      assert a[0] in a;
      SplitPiece(a[1..], rest);
      if rest.Some? {
        var s := a + "," + rest.value;
        assert s[0] == a[0] && s[1..] == a[1..] + "," + rest.value;
        assert a == [a[0]] + a[1..];
      } else {
        assert a == [a[0]] + a[1..];
      }
    }
  }

  /** A column value `ParseIdList` can read: each piece an integer literal. */
  predicate WellFormedIdList(column: Option<string>) {
    Present(column) ==> forall p :: p in Split(column.value) ==> IsIntLiteral(p)
  }

  function ParseAll(pieces: seq<string>): (ids: seq<int>)
    requires forall p :: p in pieces ==> IsIntLiteral(p)
    ensures |ids| == |pieces|
    ensures forall k :: 0 <= k < |pieces| ==> ids[k] == ParseInt(pieces[k])
  {
    if pieces == [] then [] else [ParseInt(pieces[0])] + ParseAll(pieces[1..])
  }

  /** `column ? column.split(',').map((id) => parseInt(id)) : []`. */
  function ParseIdList(column: Option<string>): (ids: seq<int>)
    requires WellFormedIdList(column)
    ensures !Present(column) ==> ids == []
    ensures Present(column) ==> |ids| == |Split(column.value)|
    ensures Present(column) ==>
      var pieces := Split(column.value);
      forall k :: 0 <= k < |pieces| ==> ids[k] == ParseInt(pieces[k])
  {
    if Present(column) then ParseAll(Split(column.value)) else []
  }

  /** Reading back a grouped column gives the ids in the order they were
      concatenated; a NULL column gives the empty list. */
  lemma {:induction false} ParseGroupConcat(ids: seq<int>)
    ensures WellFormedIdList(GroupConcat(ids))
    ensures ParseIdList(GroupConcat(ids)) == ids
  {
    if ids != [] {
      JoinRoundTrip(ids);
    }
  }

  lemma {:induction false} JoinRoundTrip(ids: seq<int>)
    requires |ids| > 0
    ensures JoinIds(ids) != ""
    ensures forall p :: p in Split(JoinIds(ids)) ==> IsIntLiteral(p)
    ensures ParseAll(Split(JoinIds(ids))) == ids
  {
    var head := IntToString(ids[0]);
    assert ',' !in head by {
      if head[0] == '-' {
        assert forall i :: 1 <= i < |head| ==> head[i] == head[1..][i - 1];
      }
    }
    IntRoundTrip(ids[0]);
    if |ids| == 1 {
      SplitPiece(head, None);
    } else {
      JoinRoundTrip(ids[1..]);
      SplitPiece(head, Some(JoinIds(ids[1..])));
      var rest := Split(JoinIds(ids[1..]));
      assert Split(JoinIds(ids)) == [head] + rest;
      ParseAllCons(head, rest);
      assert ids == [ids[0]] + ids[1..];
    }
  }

  lemma ParseAllCons(p: string, ps: seq<string>)
    requires IsIntLiteral(p) && forall q :: q in ps ==> IsIntLiteral(q)
    ensures forall q :: q in [p] + ps ==> IsIntLiteral(q)
    ensures ParseAll([p] + ps) == [ParseInt(p)] + ParseAll(ps)
  {
    assert ([p] + ps)[1..] == ps;
  }
}
