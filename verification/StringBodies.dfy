/**
  What the content of a JSON string stands for (section 7 of RFC 8259), written the other way round than the
  decoder works: a content is a list of pieces, each of which has a spelling and a text.
 */
module StringBodies {
  import opened Chars
  import opened Tokens
  import opened Observed

  /** A character for itself, a two-character escape, one code unit, or the two code units of one character. */
  datatype Piece =
    | Plain(c: char)
    | Short(index: nat)
    | Unit(digits: string)
    | Astral(high: string, low: string)

  /** The two-character escapes: the character after the backslash, and the code point meant. */
  const SHORT_ESCAPES: seq<(char, int)> := [
    ('\"', 0x22), ('\\', 0x5C), ('/', 0x2F), ('b', 0x08), ('f', 0x0C), ('n', 0x0A), ('r', 0x0D), ('t', 0x09)]

  const LOWER := "0123456789abcdef"
  const UPPER := "0123456789ABCDEF"

  /** The first place of a character in a table, or the length of the table. */
  function Place(c: char, table: string): (k: nat)
    ensures k <= |table| && (k < |table| ==> table[k] == c) && (k == |table| ==> c !in table)
  {
    if table == "" || table[0] == c then 0 else 1 + Place(c, table[1..])
  }

  function Rank(c: char): nat { if c in LOWER then Place(c, LOWER) else Place(c, UPPER) }

  /** The number that hexadecimal digits write, the last one counting once. */
  function Positional(digits: string): nat {
    if digits == "" then 0
    else Positional(digits[..|digits| - 1]) * 16 + Rank(digits[|digits| - 1])
  }

  predicate FourDigits(digits: string) {
    |digits| == 4 && forall i :: 0 <= i < 4 ==> digits[i] in LOWER || digits[i] in UPPER
  }

  predicate High(digits: string) { FourDigits(digits) && 0xD800 <= Positional(digits) <= 0xDBFF }

  predicate Low(digits: string) { FourDigits(digits) && 0xDC00 <= Positional(digits) <= 0xDFFF }

  predicate ValidPiece(p: Piece) {
    match p
    case Plain(c) => c != '\"' && c != '\\' && c as int >= 0x20
    case Short(index) => index < |SHORT_ESCAPES|
    case Unit(digits) => FourDigits(digits)
    case Astral(high, low) => High(high) && Low(low)
  }

  function Spelling(p: Piece): string
    requires ValidPiece(p)
  {
    match p
    case Plain(c) => [c]
    case Short(index) => ['\\', SHORT_ESCAPES[index].0]
    case Unit(digits) => "\\u" + digits
    case Astral(high, low) => "\\u" + high + "\\u" + low
  }

  /** What a piece stands for. Half of a character alone, which no `char` can hold, stays as it is spelled. */
  function Meaning(p: Piece): string
    requires ValidPiece(p)
  {
    match p
    case Plain(c) => [c]
    case Short(index) => [SHORT_ESCAPES[index].1 as char]
    case Unit(digits) =>
      if High(digits) || Low(digits) then "\\u" + digits
      else
        PositionalBound(digits);
        [Positional(digits) as char]
    case Astral(high, low) => [(0x10000 + 0x400 * (Positional(high) - 0xD800) + Positional(low) - 0xDC00) as char]
  }

  lemma PositionalBound(digits: string)
    requires FourDigits(digits)
    ensures Positional(digits)
      == 0x1000 * Rank(digits[0]) + 0x100 * Rank(digits[1]) + 0x10 * Rank(digits[2]) + Rank(digits[3])
    ensures forall i :: 0 <= i < 4 ==> Rank(digits[i]) < 16
    ensures Positional(digits) < 0x10000
  {
    hide Rank, Positional, LOWER, UPPER;
    forall i | 0 <= i < 4 ensures Rank(digits[i]) < 16 { RankBound(digits[i]); }
    assert digits == digits[..3] + [digits[3]] && digits[..3] == digits[..2] + [digits[2]];
    assert digits[..2] == digits[..1] + [digits[1]] && digits[..1] == "" + [digits[0]];
    OneDigitMore(digits[..3], digits[3]);
    OneDigitMore(digits[..2], digits[2]);
    OneDigitMore(digits[..1], digits[1]);
    OneDigitMore("", digits[0]);
  }

  lemma OneDigitMore(digits: string, c: char)
    ensures Positional(digits + [c]) == Positional(digits) * 16 + Rank(c) && Positional("") == 0
  {
    hide Rank;
    assert (digits + [c])[..|digits|] == digits;
  }

  lemma RankBound(c: char)
    requires c in LOWER || c in UPPER
    ensures Rank(c) < 16
  {
  }

  /** Every piece is one, and no two single code units stand side by side that are one character together. */
  predicate WellFormed(ps: seq<Piece>) {
    && (forall i :: 0 <= i < |ps| ==> ValidPiece(ps[i]))
    && forall i :: 0 <= i < |ps| - 1 ==> !Joins(ps[i], ps[i + 1])
  }

  predicate Joins(p: Piece, q: Piece) { p.Unit? && q.Unit? && High(p.digits) && Low(q.digits) }

  function Written(ps: seq<Piece>): string
    requires WellFormed(ps)
  {
    if ps == [] then "" else Spelling(ps[0]) + Written(ps[1..])
  }

  function Text(ps: seq<Piece>): string
    requires WellFormed(ps)
  {
    if ps == [] then "" else Meaning(ps[0]) + Text(ps[1..])
  }

  // The decoder's terms.

  lemma TableAt(i: nat)
    requires i < 16
    ensures |LOWER| == |UPPER| == 16
    ensures LOWER[i] as int == (if i < 10 then 0x30 + i else 0x61 + i - 10)
    ensures UPPER[i] as int == (if i < 10 then 0x30 + i else 0x41 + i - 10)
  {
  }

  lemma InTables(c: char)
    ensures c in LOWER <==> Digit(c) || 'a' <= c <= 'f'
    ensures c in UPPER <==> Digit(c) || 'A' <= c <= 'F'
    ensures c in LOWER ==> LOWER[HexIndex(c)] == c && Place(c, LOWER) == HexIndex(c)
    ensures c in UPPER ==> UPPER[HexIndex(c)] == c && Place(c, UPPER) == HexIndex(c)
  {
    TableAt(0);
    forall i: nat | i < 16
      ensures LOWER[i] as int == if i < 10 then 0x30 + i else 0x61 + i - 10
      ensures UPPER[i] as int == if i < 10 then 0x30 + i else 0x41 + i - 10
    {
      TableAt(i);
    }
    hide LOWER, UPPER;
    assert |LOWER| == 16 && |UPPER| == 16;
    if Digit(c) || 'a' <= c <= 'f' { assert LOWER[HexIndex(c)] == c; PlaceIs(c, LOWER, HexIndex(c)); }
    if Digit(c) || 'A' <= c <= 'F' { assert UPPER[HexIndex(c)] == c; PlaceIs(c, UPPER, HexIndex(c)); }
  }

  function HexIndex(c: char): (n: nat)
    ensures n < 16
  {
    if Digit(c) then c as int - 0x30 else if 'a' <= c <= 'f' then c as int - 0x61 + 10
    else if 'A' <= c <= 'F' then c as int - 0x41 + 10
    else 0
  }

  lemma HexRank(c: char)
    ensures HexDigit(c) <==> c in LOWER || c in UPPER
    ensures HexDigit(c) ==> HexValue(c) == Rank(c)
  {
    InTables(c);
    hide LOWER, UPPER, Place;
  }

  lemma {:induction false} PlaceIs(c: char, table: string, k: nat)
    requires k < |table| && table[k] == c && forall i, j :: 0 <= i < j < |table| ==> table[i] != table[j]
    ensures Place(c, table) == k
  {
    var p := Place(c, table);
    assert p < |table| && table[p] == c;
  }

  /** A code unit escape, read by the decoder. */
  lemma UnitAt(s: string, digits: string)
    requires FourDigits(digits) && |s| >= 6 && s[0] == '\\' && s[1] == 'u' && s[2..6] == digits
    ensures CodeUnit(s) == Some(Positional(digits))
  {
    hide Rank, HexValue, Positional, LOWER, UPPER, HexDigit;
    assert s[2] == digits[0] && s[3] == digits[1] && s[4] == digits[2] && s[5] == digits[3] by {
      assert s[2..6][0] == s[2] && s[2..6][1] == s[3] && s[2..6][2] == s[4] && s[2..6][3] == s[5];
    }
    DigitRank(digits, 0);
    DigitRank(digits, 1);
    DigitRank(digits, 2);
    DigitRank(digits, 3);
    PositionalBound(digits);
  }

  lemma DigitRank(digits: string, i: nat)
    requires FourDigits(digits) && i < 4
    ensures HexDigit(digits[i]) && HexValue(digits[i]) == Rank(digits[i])
  {
    hide LOWER, UPPER;
    HexRank(digits[i]);
  }

  lemma UnitSpelled(digits: string, rest: string)
    requires |digits| == 4
    ensures var s := "\\u" + digits + rest;
      |s| >= 6 && s[0] == '\\' && s[1] == 'u' && s[2..6] == digits && s[..6] == "\\u" + digits && s[6..] == rest
  {
    var head := "\\u" + digits;
    var s := head + rest;
    assert |head| == 6 && s[..6] == head && s[6..] == rest;
    assert s[2..6] == head[2..6] == digits;
  }

  lemma UnitRead(digits: string, rest: string)
    requires FourDigits(digits)
    ensures CodeUnit("\\u" + digits + rest) == Some(Positional(digits))
  {
    UnitSpelled(digits, rest);
    UnitAt("\\u" + digits + rest, digits);
  }

  lemma NoUnit(s: string)
    requires s == "" || s[0] != '\\' || (|s| >= 2 && s[1] != 'u')
    ensures CodeUnit(s) == None
  {
  }

  lemma ShortRead(index: nat)
    requires index < |SHORT_ESCAPES|
    ensures SHORT_ESCAPES[index].0 != 'u' && SimpleEscape(SHORT_ESCAPES[index].0)
    ensures SimpleEscaped(SHORT_ESCAPES[index].0) == SHORT_ESCAPES[index].1 as char
  {
  }

  lemma FirstPiece(ps: seq<Piece>)
    requires WellFormed(ps) && ps != []
    ensures ValidPiece(ps[0]) && WellFormed(ps[1..])
    ensures Written(ps) == Spelling(ps[0]) + Written(ps[1..]) && Text(ps) == Meaning(ps[0]) + Text(ps[1..])
    ensures |ps| > 1 ==> !Joins(ps[0], ps[1])
  {
    hide ValidPiece, Joins;
    var rest := ps[1..];
    forall i | 0 <= i < |rest| - 1 ensures !Joins(rest[i], rest[i + 1]) {
      assert !Joins(ps[i + 1], ps[i + 2]);
    }
  }

  /** What the decoder reads at the start of a piece. */
  lemma PieceStart(p: Piece, rest: string)
    requires ValidPiece(p)
    ensures var next := CodeUnit(Spelling(p) + rest);
      match p {
        case Plain(_) => next == None
        case Short(_) => next == None
        case Unit(digits) => next == Some(Positional(digits))
        case Astral(high, _) => next == Some(Positional(high))
      }
  {
    hide Positional, CodeUnit, LOWER, UPPER;
    match p {
      case Plain(c) => NoUnit(Spelling(p) + rest);
      case Short(index) => ShortRead(index); NoUnit(Spelling(p) + rest);
      case Unit(digits) => UnitRead(digits, rest);
      case Astral(high, low) =>
        UnitRead(high, "\\u" + low + rest);
        AstralSpelled(high, low, rest);
    }
  }

  lemma AstralSpelled(high: string, low: string, rest: string)
    requires |high| == |low| == 4
    ensures "\\u" + high + "\\u" + low + rest == "\\u" + high + ("\\u" + low + rest)
    ensures ("\\u" + high + "\\u" + low + rest)[12..] == rest
  {
  }

  /** What may be read as a code unit right after a single one: nothing that joins with it. */
  lemma NextUnit(ps: seq<Piece>, before: Piece)
    requires WellFormed([before] + ps) && before.Unit? && High(before.digits) && WellFormed(ps)
    ensures var next := CodeUnit(Written(ps)); next.Some? ==> !LowSurrogate(next.value)
  {
    var all := [before] + ps;
    if ps == [] {
      NoUnit("");
    } else {
      FirstPiece(ps);
      assert all[1] == ps[0] && !Joins(all[0], all[1]);
      hide Positional, CodeUnit, Spelling, LOWER, UPPER, Written, FourDigits;
      PieceStart(ps[0], Written(ps[1..]));
      if ps[0].Unit? { assert FourDigits(ps[0].digits); }
    }
  }

  /** The decoder gives a piece its text, and goes on behind it. */
  lemma PieceRead(p: Piece, rest: string)
    requires ValidPiece(p)
    requires p.Unit? && High(p.digits) && CodeUnit(rest).Some? ==> !LowSurrogate(CodeUnit(rest).value)
    ensures Unescape(Spelling(p) + rest) == Meaning(p) + Unescape(rest)
  {
    hide Positional, CodeUnit, Unescape, LOWER, UPPER;
    var s := Spelling(p) + rest;
    UnescapeTurn(s);
    PieceStart(p, rest);
    match p {
      case Plain(c) =>
        assert s[1..] == rest;
      case Short(index) =>
        ShortRead(index);
        assert s[2..] == rest;
      case Unit(digits) =>
        PositionalBound(digits);
        UnitSpelled(digits, rest);
      case Astral(high, low) =>
        AstralSpelled(high, low, rest);
        UnitSpelled(high, "\\u" + low + rest);
        UnitRead(low, rest);
    }
  }

  /** The decoder gives every content its text. */
  lemma {:induction false} UnescapeIsText(ps: seq<Piece>)
    requires WellFormed(ps)
    ensures Unescape(Written(ps)) == Text(ps)
    decreases |ps|
  {
    if ps != [] {
      FirstPiece(ps);
      UnescapeIsText(ps[1..]);
      hide Written, Text, WellFormed, CodeUnit, Unescape, Spelling, Meaning, High, ValidPiece;
      if ps[0].Unit? && High(ps[0].digits) {
        assert [ps[0]] + ps[1..] == ps;
        NextUnit(ps[1..], ps[0]);
      }
      PieceRead(ps[0], Written(ps[1..]));
    }
  }

  /** One turn of the decoder. */
  lemma UnescapeTurn(s: string)
    ensures s != "" && s[0] != '\\' ==> Unescape(s) == [s[0]] + Unescape(s[1..])
    ensures |s| > 1 && s[0] == '\\' && CodeUnit(s).None? ==> Unescape(s) == [SimpleEscaped(s[1])] + Unescape(s[2..])
    ensures CodeUnit(s).Some? ==>
      var high, low := CodeUnit(s).value, CodeUnit(s[6..]);
      Unescape(s) ==
        if low.Some? && HighSurrogate(high) && LowSurrogate(low.value) then
          [(0x10000 + (high - 0xD800) * 0x400 + (low.value - 0xDC00)) as char] + Unescape(s[12..])
        else if HighSurrogate(high) || LowSurrogate(high) then s[..6] + Unescape(s[6..])
        else [high as char] + Unescape(s[6..])
  {
  }

  // Every content is written by pieces.

  /** The pieces of a content. */
  function PiecesOf(s: string): seq<Piece>
    decreases |s|
  {
    if s == "" then []
    else if s[0] != '\\' || |s| == 1 then [Plain(s[0])] + PiecesOf(s[1..])
    else if s[1] != 'u' || |s| < 6 then [Short(ShortIndex(s[1], 0))] + PiecesOf(s[2..])
    else if High(s[2..6]) && |s| >= 12 && s[6..8] == "\\u" && Low(s[8..12]) then
      [Astral(s[2..6], s[8..12])] + PiecesOf(s[12..])
    else [Unit(s[2..6])] + PiecesOf(s[6..])
  }

  function ShortIndex(c: char, k: nat): nat
    requires k <= |SHORT_ESCAPES|
    decreases |SHORT_ESCAPES| - k
  {
    if k == |SHORT_ESCAPES| || SHORT_ESCAPES[k].0 == c then k else ShortIndex(c, k + 1)
  }

  /** What the content of a string stands for. */
  function Content(body: string): string {
    if WellFormed(PiecesOf(body)) then Text(PiecesOf(body)) else body
  }

  /** A content that starts with a piece and ends a string ends it behind the piece too. */
  lemma BodyTail(s: string, k: nat)
    requires k <= |s| && StringEnd(s + "\"", k) == Some(|s| + 1)
    ensures StringBody(s[k..])
  {
    var t, u := s + "\"", s[k..] + "\"";
    forall i | k <= i < |s| + 1 ensures t[i] == u[0 - k + i] {}
    StringEndLocal(t, k, u, 0);
  }

  /** How a content starts. */
  lemma BodyStart(s: string)
    requires StringBody(s) && s != ""
    ensures s[0] != '\\' ==> s[0] != '\"' && s[0] >= ' ' && StringBody(s[1..])
    ensures s[0] == '\\' ==>
      |s| >= 2 && if SimpleEscape(s[1]) then StringBody(s[2..]) else
        |s| >= 6 && s[1] == 'u' && (forall k :: 2 <= k < 6 ==> HexDigit(s[k])) && StringBody(s[6..])
  {
    var t := s + "\"";
    assert t[0] == s[0] && StringEnd(t, 0) == Some(|s| + 1);
    if s[0] != '\\' {
      BodyTail(s, 1);
    } else {
      assert t[|s|] == '\"' && |s| >= 2;
      assert t[1] == s[1];
      if SimpleEscape(s[1]) {
        BodyTail(s, 2);
      } else {
        assert StringEnd(t, 0) == StringEnd(t, 6);
        assert forall k :: 2 <= k < 6 ==> HexDigit(t[k]);
        assert t[|s|] == '\"' && |s| >= 6;
        assert forall k :: 2 <= k < 6 ==> t[k] == s[k];
        BodyTail(s, 6);
      }
    }
  }

  lemma ShortIndexIs(c: char)
    requires SimpleEscape(c)
    ensures ShortIndex(c, 0) < |SHORT_ESCAPES| && SHORT_ESCAPES[ShortIndex(c, 0)].0 == c && c != 'u'
  {
  }

  lemma FourHex(s: string, k: nat)
    requires k + 4 <= |s| && forall i :: k <= i < k + 4 ==> HexDigit(s[i])
    ensures FourDigits(s[k..k + 4])
  {
    hide LOWER, UPPER;
    var digits := s[k..k + 4];
    forall i | 0 <= i < 4 ensures digits[i] in LOWER || digits[i] in UPPER { HexRank(s[k + i]); }
  }

  /** One turn of the reading of pieces. */
  lemma PiecesTurn(s: string)
    ensures s == "" ==> PiecesOf(s) == []
    ensures s != "" && s[0] != '\\' ==> PiecesOf(s) == [Plain(s[0])] + PiecesOf(s[1..])
    ensures |s| > 1 && s[0] == '\\' && s[1] != 'u' ==>
      PiecesOf(s) == [Short(ShortIndex(s[1], 0))] + PiecesOf(s[2..])
    ensures |s| >= 6 && s[0] == '\\' && s[1] == 'u' ==>
      if High(s[2..6]) && |s| >= 12 && s[6..8] == "\\u" && Low(s[8..12]) then
        PiecesOf(s) == [Astral(s[2..6], s[8..12])] + PiecesOf(s[12..])
      else PiecesOf(s) == [Unit(s[2..6])] + PiecesOf(s[6..])
  {
  }

  lemma MorePieces(p: Piece, ps: seq<Piece>)
    requires ValidPiece(p) && WellFormed(ps) && (ps != [] ==> !Joins(p, ps[0]))
    ensures WellFormed([p] + ps) && Written([p] + ps) == Spelling(p) + Written(ps)
  {
    hide ValidPiece, Joins, Spelling;
    var all := [p] + ps;
    forall i | 0 <= i < |all| - 1 ensures !Joins(all[i], all[i + 1]) {
      if i > 0 { assert all[i] == ps[i - 1] && all[i + 1] == ps[i]; }
    }
    assert all[1..] == ps;
  }

  lemma {:induction false} UnitHead(s: string)
    requires |PiecesOf(s)| > 0 && PiecesOf(s)[0].Unit?
    ensures |s| >= 6 && s[..2] == "\\u" && PiecesOf(s)[0].digits == s[2..6]
  {
  }

  /** Every content of a string is written by its pieces. */
  lemma {:induction false} BodyIsWritten(s: string)
    requires StringBody(s)
    ensures WellFormed(PiecesOf(s)) && Written(PiecesOf(s)) == s
    decreases |s|
  {
    hide *;
    PiecesTurn(s);
    if s == "" {
      NoPieces();
    } else {
      BodyStart(s);
      if s[0] != '\\' {
        BodyIsWritten(s[1..]);
        PlainPiece(s[0], s);
        MorePieces(Plain(s[0]), PiecesOf(s[1..]));
      } else if SimpleEscape(s[1]) {
        ShortIndexIs(s[1]);
        BodyIsWritten(s[2..]);
        ShortPiece(s);
        MorePieces(Short(ShortIndex(s[1], 0)), PiecesOf(s[2..]));
      } else {
        FourHex(s, 2);
        BodyIsWritten(s[6..]);
        UnitSplit(s);
        if High(s[2..6]) && |s| >= 12 && s[6..8] == "\\u" && Low(s[8..12]) {
          AstralBody(s);
          BodyIsWritten(s[12..]);
          MorePieces(Astral(s[2..6], s[8..12]), PiecesOf(s[12..]));
        } else {
          UnitAlone(s);
          MorePieces(Unit(s[2..6]), PiecesOf(s[6..]));
        }
      }
    }
  }

  lemma NoPieces()
    ensures WellFormed([]) && Written([]) == "" && Text([]) == ""
  {
  }

  lemma PlainPiece(c: char, s: string)
    requires s != "" && s[0] == c && c != '\"' && c != '\\' && c >= ' '
    ensures ValidPiece(Plain(c)) && s == Spelling(Plain(c)) + s[1..] && forall p :: !Joins(Plain(c), p)
  {
  }

  lemma ShortPiece(s: string)
    requires |s| >= 2 && s[0] == '\\' && ShortIndex(s[1], 0) < |SHORT_ESCAPES|
    requires SHORT_ESCAPES[ShortIndex(s[1], 0)].0 == s[1]
    ensures var p := Short(ShortIndex(s[1], 0));
      ValidPiece(p) && s == Spelling(p) + s[2..] && forall q :: !Joins(p, q)
  {
    hide ShortIndex, SHORT_ESCAPES;
  }

  lemma UnitSplit(s: string)
    requires |s| >= 6 && s[0] == '\\' && s[1] == 'u' && FourDigits(s[2..6])
    ensures ValidPiece(Unit(s[2..6])) && s == Spelling(Unit(s[2..6])) + s[6..]
  {
    hide FourDigits;
    assert s[..2] == "\\u" && s == s[..2] + s[2..6] + s[6..];
  }

  lemma AstralBody(s: string)
    requires |s| >= 12 && s[0] == '\\' && s[1] == 'u' && s[6..8] == "\\u" && High(s[2..6]) && Low(s[8..12])
    requires StringBody(s[6..])
    ensures var p := Astral(s[2..6], s[8..12]);
      ValidPiece(p) && s == Spelling(p) + s[12..] && StringBody(s[12..]) && forall q :: !Joins(p, q)
  {
    hide High, Low, StringBody;
    var tail := s[6..];
    assert tail[0] == s[6..8][0] == '\\' && tail[1] == s[6..8][1] == 'u';
    BodyStart(tail);
    assert tail[6..] == s[12..];
    assert s[..2] == "\\u" && s == s[..2] + s[2..6] + s[6..8] + s[8..12] + s[12..];
  }

  lemma UnitAlone(s: string)
    requires |s| >= 6 && !(High(s[2..6]) && |s| >= 12 && s[6..8] == "\\u" && Low(s[8..12]))
    ensures PiecesOf(s[6..]) != [] ==> !Joins(Unit(s[2..6]), PiecesOf(s[6..])[0])
  {
    hide High, Low, PiecesOf;
    var tail := s[6..];
    if PiecesOf(tail) != [] && PiecesOf(tail)[0].Unit? {
      UnitHead(tail);
      if |s| >= 12 { assert tail[..2] == s[6..8] && tail[2..6] == s[8..12]; }
    }
  }

  /** The pieces of a content are the only ones that write it. */
  lemma {:induction false} PiecesOfWritten(ps: seq<Piece>)
    requires WellFormed(ps)
    ensures PiecesOf(Written(ps)) == ps
    decreases |ps|
  {
    hide *;
    if ps == [] {
      NoPieces();
      PiecesTurn("");
    } else {
      FirstPiece(ps);
      PiecesOfWritten(ps[1..]);
      PieceFound(ps[0], Written(ps[1..]));
      assert [ps[0]] + ps[1..] == ps;
    }
  }

  lemma PieceFound(p: Piece, rest: string)
    requires ValidPiece(p) && (PiecesOf(rest) != [] ==> !Joins(p, PiecesOf(rest)[0]))
    ensures PiecesOf(Spelling(p) + rest) == [p] + PiecesOf(rest)
  {
    hide *;
    match p {
      case Plain(c) => PlainFound(c, rest);
      case Short(index) => ShortFound(index, rest);
      case Unit(digits) => UnitFound(digits, rest);
      case Astral(high, low) => AstralFound(high, low, rest);
    }
  }

  lemma PlainFound(c: char, rest: string)
    requires ValidPiece(Plain(c))
    ensures PiecesOf(Spelling(Plain(c)) + rest) == [Plain(c)] + PiecesOf(rest)
  {
    hide Positional, LOWER, UPPER, PiecesOf, ShortIndex;
    var s := Spelling(Plain(c)) + rest;
    PiecesTurn(s);
    assert s[1..] == rest;
  }

  lemma ShortFound(index: nat, rest: string)
    requires ValidPiece(Short(index))
    ensures PiecesOf(Spelling(Short(index)) + rest) == [Short(index)] + PiecesOf(rest)
  {
    hide Positional, LOWER, UPPER, PiecesOf, ShortIndex;
    var s := Spelling(Short(index)) + rest;
    PiecesTurn(s);
    ShortRead(index);
    assert s[2..] == rest;
    ShortIndexOf(index);
  }

  lemma UnitFound(digits: string, rest: string)
    requires ValidPiece(Unit(digits)) && (PiecesOf(rest) != [] ==> !Joins(Unit(digits), PiecesOf(rest)[0]))
    ensures PiecesOf(Spelling(Unit(digits)) + rest) == [Unit(digits)] + PiecesOf(rest)
  {
    hide Positional, LOWER, UPPER, PiecesOf, ShortIndex, SHORT_ESCAPES;
    var s := Spelling(Unit(digits)) + rest;
    PiecesTurn(s);
    UnitSpelled(digits, rest);
    if |s| >= 12 && s[6..8] == "\\u" && Low(s[8..12]) && High(s[2..6]) {
      LowUnit(rest, s[8..12]);
      assert false;
    }
  }

  lemma AstralFound(high: string, low: string, rest: string)
    requires ValidPiece(Astral(high, low))
    ensures PiecesOf(Spelling(Astral(high, low)) + rest) == [Astral(high, low)] + PiecesOf(rest)
  {
    hide Positional, LOWER, UPPER, PiecesOf, ShortIndex, SHORT_ESCAPES;
    var s := Spelling(Astral(high, low)) + rest;
    PiecesTurn(s);
    AstralSpelled(high, low, rest);
    UnitSpelled(high, "\\u" + low + rest);
    UnitSpelled(low, rest);
    assert s[6..8] == s[6..][..2] && s[8..12] == s[6..][2..6] == low;
  }

  lemma ShortIndexOf(index: nat)
    requires index < |SHORT_ESCAPES|
    ensures ShortIndex(SHORT_ESCAPES[index].0, 0) == index
  {
  }

  /** A low unit at the start is a piece of its own. */
  lemma LowUnit(s: string, digits: string)
    requires |s| >= 6 && s[..2] == "\\u" && s[2..6] == digits && Low(digits)
    ensures PiecesOf(s) != [] && PiecesOf(s)[0] == Unit(digits)
  {
    assert s[0] == s[..2][0] && s[1] == s[..2][1];
    PiecesTurn(s);
    hide PiecesOf, Positional, LOWER, UPPER;
  }

  /** A list of pieces is the content of a string, and stands for their text. */
  lemma {:induction false} WrittenIsBody(ps: seq<Piece>)
    requires WellFormed(ps)
    ensures StringBody(Written(ps))
    decreases |ps|
  {
    hide *;
    if ps == [] {
      NoPieces();
      EmptyBody();
    } else {
      FirstPiece(ps);
      WrittenIsBody(ps[1..]);
      BodyGrows(ps[0], Written(ps[1..]));
    }
  }

  lemma EmptyBody()
    ensures StringBody("")
  {
  }

  lemma BodyAfter(s: string, k: nat)
    requires k <= |s| && StringBody(s[k..]) && StringEnd(s + "\"", 0) == StringEnd(s + "\"", k)
    ensures StringBody(s)
  {
    var t, u := s + "\"", s[k..] + "\"";
    forall i | 0 <= i < |u| ensures u[i] == t[k - 0 + i] {}
    StringEndLocal(u, 0, t, k);
  }

  lemma BodyGrows(p: Piece, rest: string)
    requires ValidPiece(p) && StringBody(rest)
    ensures StringBody(Spelling(p) + rest)
  {
    hide StringBody, Positional, LOWER, UPPER;
    match p {
      case Plain(c) =>
        var s := [c] + rest;
        assert s[1..] == rest && (s + "\"")[0] == c;
        BodyAfter(s, 1);
      case Short(index) =>
        ShortRead(index);
        var s := Spelling(p) + rest;
        assert s[2..] == rest && (s + "\"")[0] == '\\' && (s + "\"")[1] == SHORT_ESCAPES[index].0;
        BodyAfter(s, 2);
      case Unit(digits) => UnitGrows(digits, rest);
      case Astral(high, low) =>
        UnitGrows(low, rest);
        UnitGrows(high, "\\u" + low + rest);
        AstralSpelled(high, low, rest);
    }
  }

  lemma UnitGrows(digits: string, rest: string)
    requires FourDigits(digits) && StringBody(rest)
    ensures StringBody("\\u" + digits + rest)
  {
    hide StringBody, LOWER, UPPER;
    UnitSpelled(digits, rest);
    var s := "\\u" + digits + rest;
    var t := s + "\"";
    forall k | 2 <= k < 6 ensures HexDigit(t[k]) {
      assert t[k] == s[k] == s[2..6][k - 2];
      HexRank(digits[k - 2]);
    }
    assert t[0] == '\\' && t[1] == 'u' && !SimpleEscape('u');
    BodyAfter(s, 6);
  }

  /**
    The decoder against the pieces: every content of a string is written by a list of pieces, and decodes to
    the text of that list; and every list of pieces is a content that decodes to its text.
   */
  lemma ContentIsDecoded(body: string)
    requires StringBody(body)
    ensures Unescape(body) == Content(body)
    ensures WellFormed(PiecesOf(body)) && Written(PiecesOf(body)) == body && Content(body) == Text(PiecesOf(body))
  {
    hide PiecesOf, Written, Text, WellFormed, Unescape;
    BodyIsWritten(body);
    UnescapeIsText(PiecesOf(body));
  }

  lemma WrittenIsDecoded(ps: seq<Piece>)
    requires WellFormed(ps)
    ensures StringBody(Written(ps)) && Content(Written(ps)) == Unescape(Written(ps)) == Text(ps)
  {
    hide PiecesOf, Written, Text, WellFormed, Unescape;
    WrittenIsBody(ps);
    PiecesOfWritten(ps);
    UnescapeIsText(ps);
  }
}
