/** The `shared_with` field of `createDocument` (controllers/documentController.js): a
    comma-separated list of user ids, read with `String(s).split(',')`, each piece
    `trim`med and read by `parseInt(piece, 10)`, dropping the pieces that give NaN. */
module SharedWith {
  import opened Common

  // ---------------------------------------------------------------------------------------
  // split and join

  /** `s.split(sep)`: an empty string gives one empty piece; adjacent separators give empty
      pieces between them. */
  function Split(s: string, sep: char): (parts: seq<string>)
    ensures |parts| >= 1
    ensures forall i :: 0 <= i < |parts| ==> sep !in parts[i]
  {
    if s == [] then [""]
    else
      var rest := Split(s[1..], sep);
      if s[0] == sep then [""] + rest
      else [[s[0]] + rest[0]] + rest[1..]
  }

  /** `parts.join(sep)` */
  function Join(parts: seq<string>, sep: char): string
    requires |parts| >= 1
  {
    if |parts| == 1 then parts[0] else parts[0] + [sep] + Join(parts[1..], sep)
  }

  /** Joining the pieces gives back the string: no character is lost or added by `split`. */
  lemma {:induction false} JoinSplit(s: string, sep: char)
    ensures Join(Split(s, sep), sep) == s
  {
    if s != [] {
      var rest := Split(s[1..], sep);
      JoinSplit(s[1..], sep);
      if s[0] == sep {
        assert Split(s, sep) == [""] + rest;
        assert ([""] + rest)[1..] == rest;
      } else if |rest| == 1 {
        assert Split(s, sep) == [[s[0]] + rest[0]];
      } else {
        var parts := Split(s, sep);
        assert parts[1..] == rest[1..];
        assert Join(rest, sep) == rest[0] + [sep] + Join(rest[1..], sep);
      }
    }
  }

  /** A word without the separator is glued to the first piece of what follows it. */
  lemma {:induction false} SplitPrefix(w: string, t: string, sep: char)
    requires sep !in w
    ensures Split(w + t, sep) == [w + Split(t, sep)[0]] + Split(t, sep)[1..]
  {
    if w == [] {
      assert w + t == t;
      assert w + Split(t, sep)[0] == Split(t, sep)[0];
      assert [Split(t, sep)[0]] + Split(t, sep)[1..] == Split(t, sep);
    } else {
      assert (w + t)[0] == w[0];
      assert (w + t)[1..] == w[1..] + t;
      SplitPrefix(w[1..], t, sep);
      assert [w[0]] + (w[1..] + Split(t, sep)[0]) == w + Split(t, sep)[0];
    }
  }

  /** Splitting undoes joining pieces that do not contain the separator. */
  lemma {:induction false} SplitJoin(parts: seq<string>, sep: char)
    requires |parts| >= 1
    requires forall i :: 0 <= i < |parts| ==> sep !in parts[i]
    ensures Split(Join(parts, sep), sep) == parts
  {
    if |parts| == 1 {
      SplitPrefix(parts[0], "", sep);
      assert parts[0] + "" == parts[0];
      assert parts[0] + Split("", sep)[0] == parts[0];
    } else {
      var tail := Join(parts[1..], sep);
      SplitJoin(parts[1..], sep);
      assert parts[0] + [sep] + tail == parts[0] + ([sep] + tail);
      SplitPrefix(parts[0], [sep] + tail, sep);
      assert ([sep] + tail)[1..] == tail;
      assert Split([sep] + tail, sep) == [""] + parts[1..];
      assert parts[0] + "" == parts[0];
    }
  }

  // ---------------------------------------------------------------------------------------
  // trim

  /** The characters `trim` removes: ECMAScript's WhiteSpace and LineTerminator. */
  predicate IsSpace(c: char) {
    || c == ' ' || c == '\t' || c == '\n' || c == '\r' || c == '\U{000B}' || c == '\U{000C}'
    || c == '\U{00A0}' || c == '\U{1680}' || ('\U{2000}' <= c <= '\U{200A}')
    || c == '\U{2028}' || c == '\U{2029}' || c == '\U{202F}' || c == '\U{205F}'
    || c == '\U{3000}' || c == '\U{FEFF}'
  }

  function TrimStart(s: string): (r: string)
    ensures |r| <= |s| && r == s[|s| - |r|..]
    ensures r != [] ==> !IsSpace(r[0])
    ensures forall i :: 0 <= i < |s| - |r| ==> IsSpace(s[i])
  {
    if s != [] && IsSpace(s[0]) then TrimStart(s[1..]) else s
  }

  function TrimEnd(s: string): (r: string)
    ensures r <= s
    ensures r != [] ==> !IsSpace(r[|r| - 1])
    ensures forall i :: |r| <= i < |s| ==> IsSpace(s[i])
  {
    if s != [] && IsSpace(s[|s| - 1]) then TrimEnd(s[..|s| - 1]) else s
  }

  /** `s.trim()` */
  function Trim(s: string): (r: string)
    ensures r != [] ==> !IsSpace(r[0]) && !IsSpace(r[|r| - 1])
  {
    TrimEnd(TrimStart(s))
  }

  // ---------------------------------------------------------------------------------------
  // parseInt(s, 10)

  predicate IsDigit(c: char) {
    '0' <= c <= '9'
  }

  /** The longest prefix of decimal digits. */
  function DigitPrefix(s: string): (d: string)
    ensures d <= s
    ensures forall i :: 0 <= i < |d| ==> IsDigit(d[i])
    ensures |d| < |s| ==> !IsDigit(s[|d|])
  {
    if s != [] && IsDigit(s[0]) then [s[0]] + DigitPrefix(s[1..]) else ""
  }

  /** The value of a string of decimal digits, most significant first. */
  function DecimalValue(d: string): nat
    requires forall i :: 0 <= i < |d| ==> IsDigit(d[i])
  {
    if d == [] then 0
    else
      var last := d[|d| - 1];
      assert IsDigit(last);
      DecimalValue(d[..|d| - 1]) * 10 + (last as int - '0' as int)
  }

  /** `parseInt(s, 10)`: leading white space, an optional sign, then as many digits as there
      are; no digit at all is NaN (None). */
  function ParseInt(s: string): (r: Option<int>)
    ensures s == [] ==> r.None?
    // a leading digit always gives a number, and a non-negative one
    ensures s != [] && IsDigit(s[0]) ==> r.Some? && r.value >= 0
    // anything else but a sign is NaN
    ensures s != [] && !IsSpace(s[0]) && !IsDigit(s[0]) && s[0] != '-' && s[0] != '+' ==> r.None?
  {
    ParseSigned(TrimStart(s))
  }

  /** Leading white space is skipped. */
  lemma LeadingSpaceSkipped(s: string)
    requires s != [] && IsSpace(s[0])
    ensures ParseInt(s) == ParseInt(s[1..])
  {
  }

  /** The sign, then the digits. */
  function ParseSigned(t: string): (r: Option<int>)
    ensures t != [] && IsDigit(t[0]) ==> r.Some? && r.value >= 0
    ensures r.Some? && r.value < 0 ==> t != [] && t[0] == '-'
    ensures t == [] || (!IsDigit(t[0]) && t[0] != '-' && t[0] != '+') ==> r.None?
  {
    if t != [] && t[0] == '-' then
      match ParseUnsigned(t[1..])
      case None => None
      case Some(v) => Some(0 - v)
    else if t != [] && t[0] == '+' then ParseUnsigned(t[1..])
    else ParseUnsigned(t)
  }

  /** The digits: NaN unless the text starts with one, and never negative. */
  function ParseUnsigned(b: string): (r: Option<int>)
    ensures r.Some? <==> b != [] && IsDigit(b[0])
    ensures r.Some? ==> r.value >= 0
  {
    var digits := DigitPrefix(b);
    if digits == [] then None else Some(DecimalValue(digits))
  }

  // ---------------------------------------------------------------------------------------
  // The whole field

  /** The pieces' values, NaN pieces dropped, in order. */
  function ParseAll(pieces: seq<string>): (ids: seq<int>)
    ensures |ids| <= |pieces|
  {
    if pieces == [] then []
    else
      match ParseInt(Trim(pieces[0]))
      case None => ParseAll(pieces[1..])
      case Some(v) => [v] + ParseAll(pieces[1..])
  }

  /** `String(shared_with).split(',').map(id => parseInt(id.trim(), 10)).filter(id => !isNaN(id))` */
  function ParseSharedWith(s: string): (ids: seq<int>)
    ensures |ids| <= |Split(s, ',')|
  {
    ParseAll(Split(s, ','))
  }

  // ---------------------------------------------------------------------------------------
  // Round trip with the way a client writes the field

  function DigitChar(n: nat): char
    requires n < 10
  {
    ('0' as int + n) as char
  }

  /** A natural number in decimal, most significant digit first. */
  function ShowNat(n: nat): (s: string)
    ensures |s| >= 1
    ensures forall i :: 0 <= i < |s| ==> IsDigit(s[i])
  {
    if n < 10 then [DigitChar(n)] else ShowNat(n / 10) + [DigitChar(n % 10)]
  }

  /** An integer in decimal, with a leading '-' when negative. */
  function ShowInt(i: int): (s: string)
    ensures |s| >= 1 && ',' !in s && !IsSpace(s[0]) && !IsSpace(s[|s| - 1])
  {
    if i < 0 then ['-'] + ShowNat(-i) else ShowNat(i)
  }

  function ShowAll(ids: seq<int>): (pieces: seq<string>)
    ensures |pieces| == |ids|
    ensures forall i :: 0 <= i < |ids| ==> pieces[i] == ShowInt(ids[i])
  {
    if ids == [] then [] else [ShowInt(ids[0])] + ShowAll(ids[1..])
  }

  /** `ids.join(',')` */
  function JoinIds(ids: seq<int>): string
    requires |ids| >= 1
  {
    Join(ShowAll(ids), ',')
  }

  lemma {:induction false} DecimalShow(n: nat)
    ensures DecimalValue(ShowNat(n)) == n
  {
    if n >= 10 {
      DecimalShow(n / 10);
      var s := ShowNat(n);
      assert s[..|s| - 1] == ShowNat(n / 10);
    }
  }

  lemma DigitsAreTheirOwnPrefix(d: string)
    requires forall i :: 0 <= i < |d| ==> IsDigit(d[i])
    ensures DigitPrefix(d) == d
  {
    if d != [] {
      DigitsAreTheirOwnPrefix(d[1..]);
    }
  }

  lemma ParseUnsignedDigits(d: string)
    requires |d| >= 1 && forall i :: 0 <= i < |d| ==> IsDigit(d[i])
    ensures ParseUnsigned(d) == Some(DecimalValue(d))
  {
    DigitsAreTheirOwnPrefix(d);
  }

  /** A run of digits reads as its decimal value. */
  lemma ParseDigits(d: string)
    requires |d| >= 1 && forall i :: 0 <= i < |d| ==> IsDigit(d[i])
    ensures ParseInt(d) == Some(DecimalValue(d))
  {
    assert IsDigit(d[0]);
    TrimStartKeeps(d);
    assert ParseSigned(d) == ParseUnsigned(d);
    ParseUnsignedDigits(d);
  }

  /** A minus sign followed by a run of digits reads as the negated value. */
  lemma ParseNegDigits(d: string)
    requires |d| >= 1 && forall i :: 0 <= i < |d| ==> IsDigit(d[i])
    ensures ParseInt(['-'] + d) == Some(0 - DecimalValue(d))
  {
    var s := ['-'] + d;
    TrimStartKeeps(s);
    assert s[1..] == d;
    ParseSignedNegative(s, d);
  }

  lemma ParseSignedNegative(s: string, d: string)
    requires |d| >= 1 && forall i :: 0 <= i < |d| ==> IsDigit(d[i])
    requires s != [] && s[0] == '-' && s[1..] == d
    ensures ParseSigned(s) == Some(0 - DecimalValue(d))
  {
    ParseUnsignedDigits(d);
  }

  lemma TrimStartKeeps(s: string)
    requires s != [] && !IsSpace(s[0])
    ensures TrimStart(s) == s
  {
  }

  lemma ParseShowNegative(i: int)
    requires i < 0
    ensures ParseInt(ShowInt(i)) == Some(i)
  {
    var n: nat := -i;
    assert ShowInt(i) == ['-'] + ShowNat(n);
    ParseNegShown(n);
  }

  lemma ParseNegShown(n: nat)
    ensures ParseInt(['-'] + ShowNat(n)) == Some(0 - n)
  {
    ParseNegDigits(ShowNat(n));
    DecimalShow(n);
  }

  lemma ParseShowNat(i: int)
    requires i >= 0
    ensures ParseInt(ShowInt(i)) == Some(i)
  {
    var d := ShowNat(i);
    assert ShowInt(i) == d;
    ParseDigits(d);
    DecimalShow(i);
  }

  /** `parseInt` reads back every integer written in decimal. */
  lemma ParseShow(i: int)
    ensures ParseInt(ShowInt(i)) == Some(i)
  {
    if i < 0 {
      ParseShowNegative(i);
    } else {
      ParseShowNat(i);
    }
  }

  lemma TrimShow(i: int)
    ensures Trim(ShowInt(i)) == ShowInt(i)
  {
    var s := ShowInt(i);
    assert TrimStart(s) == s;
    assert TrimEnd(s) == s;
  }

  lemma ShownPieceReads(i: int)
    ensures ParseInt(Trim(ShowInt(i))) == Some(i)
  {
    TrimShow(i);
    ParseShow(i);
  }

  lemma ParseAllStep(pieces: seq<string>, v: int)
    requires pieces != [] && ParseInt(Trim(pieces[0])) == Some(v)
    ensures ParseAll(pieces) == [v] + ParseAll(pieces[1..])
  {
  }

  lemma {:induction false} ParseAllShown(ids: seq<int>)
    ensures ParseAll(ShowAll(ids)) == ids
  {
    if ids != [] {
      var pieces := ShowAll(ids);
      ShownPieceReads(ids[0]);
      ParseAllStep(pieces, ids[0]);
      assert pieces[1..] == ShowAll(ids[1..]);
      ParseAllShown(ids[1..]);
      assert ids == [ids[0]] + ids[1..];
    }
  }

  /** Round trip: a list of ids written with commas is read back as exactly that list, in
      order and with its duplicates. */
  lemma SharedWithRoundTrip(ids: seq<int>)
    requires |ids| >= 1
    ensures ParseSharedWith(JoinIds(ids)) == ids
  {
    SplitJoin(ShowAll(ids), ',');
    ParseAllShown(ids);
  }

  /** A piece without a leading digit is NaN, and is dropped. */
  lemma NoDigitIsNaN()
    ensures ParseInt("abc") == None && ParseInt("") == None
  {
    TrimStartKeeps("abc");
    assert DigitPrefix("abc") == "";
  }

  /** A sign alone is NaN too. */
  lemma SignAloneIsNaN()
    ensures ParseInt("-") == None
  {
    TrimStartKeeps("-");
    assert "-"[1..] == "";
  }

  /** A piece is read up to its first non-digit. */
  lemma StopsAtNonDigit()
    ensures ParseInt("7x") == Some(7)
  {
    assert TrimStart("7x") == "7x";
    assert DigitPrefix("7x") == "7" by {
      assert "7x"[1..] == "x";
    }
    assert DecimalValue("7") == 7 by {
      assert "7"[..0] == "";
    }
  }

  /** An empty field shares with nobody. */
  lemma EmptyFieldSharesNothing()
    ensures ParseSharedWith("") == []
  {
    assert Split("", ',') == [""];
    assert Trim("") == "";
  }
}
