/** Python's `str.split`, `str.join`, `str.strip` and `int` on one-character separators and ASCII digits. */
module Texts {
  import opened Chars
  import opened Json

  /** Always at least one part; no part holds the separator. */
  function Split(t: string, sep: char): (r: seq<string>)
    ensures r != [] && forall i :: 0 <= i < |r| ==> sep !in r[i]
  {
    if t == "" then [""]
    else
      var rest := Split(t[1..], sep);
      if t[0] == sep then [""] + rest else [[t[0]] + rest[0]] + rest[1..]
  }

  function Join(parts: seq<string>, sep: char): string {
    if parts == [] then "" else if |parts| == 1 then parts[0] else parts[0] + [sep] + Join(parts[1..], sep)
  }

  lemma {:induction false} SplitOne(t: string, sep: char)
    requires sep !in t
    ensures Split(t, sep) == [t]
  {
    if t != "" {
      SplitOne(t[1..], sep);
      assert [t[0]] + t[1..] == t;
    }
  }

  lemma {:induction false} SplitAt(a: string, sep: char, t: string)
    requires sep !in a
    ensures Split(a + [sep] + t, sep) == [a] + Split(t, sep)
  {
    var all := a + [sep] + t;
    if a == "" {
      assert all[0] == sep && all[1..] == t;
    } else {
      assert all[0] == a[0] && all[1..] == a[1..] + [sep] + t;
      SplitAt(a[1..], sep, t);
      assert [a[0]] + a[1..] == a;
    }
  }

  /** Splitting undoes joining. */
  lemma {:induction false} SplitJoin(parts: seq<string>, sep: char)
    requires parts != [] && forall i :: 0 <= i < |parts| ==> sep !in parts[i]
    ensures Split(Join(parts, sep), sep) == parts
  {
    if |parts| == 1 {
      SplitOne(parts[0], sep);
    } else {
      SplitAt(parts[0], sep, Join(parts[1..], sep));
      SplitJoin(parts[1..], sep);
    }
  }

  /** Joining undoes splitting. */
  lemma {:induction false} JoinSplit(t: string, sep: char)
    ensures Join(Split(t, sep), sep) == t
  {
    if t != "" {
      JoinSplit(t[1..], sep);
      var rest := Split(t[1..], sep);
      if t[0] == sep {
        assert ([""] + rest)[1..] == rest;
      } else if |rest| > 1 {
        assert ([[t[0]] + rest[0]] + rest[1..])[1..] == rest[1..];
      }
    }
  }

  /** Both ends without any `c`. */
  function Strip(t: string, c: char): (r: string)
    ensures r != "" ==> r[0] != c && r[|r| - 1] != c
  {
    if t == "" then ""
    else if t[0] == c then Strip(t[1..], c)
    else if t[|t| - 1] == c then Strip(t[..|t| - 1], c)
    else t
  }

  predicate Digits(t: string) { t != "" && forall i :: 0 <= i < |t| ==> Digit(t[i]) }

  function Number(t: string): nat
    requires forall i :: 0 <= i < |t| ==> Digit(t[i])
  {
    if t == "" then 0
    else
      var last := t[|t| - 1];
      assert Digit(last);
      10 * Number(t[..|t| - 1]) + (last - '0') as nat
  }

  lemma {:induction false} NumberOfDecimal(n: nat)
    ensures Digits(Decimal(n)) && Number(Decimal(n)) == n
  {
    var d := Decimal(n);
    if n < 10 {
      assert d[..|d| - 1] == "";
      DigitValue(n);
    } else {
      NumberOfDecimal(n / 10);
      assert d[..|d| - 1] == Decimal(n / 10);
      DigitValue(n % 10);
    }
  }

  lemma DigitValue(n: nat)
    requires n < 10
    ensures (DigitChar(n) - '0') as nat == n
  {
  }

  /** `int(text)`: an optional sign and digits. */
  function AsInt(t: string): Option<int> {
    if Digits(t) then Some(Number(t))
    else if t != "" && (t[0] == '-' || t[0] == '+') && Digits(t[1..]) then
      var n: int := Number(t[1..]);
      Some(if t[0] == '-' then -n else n)
    else None
  }

  function Concat(parts: seq<string>): string {
    if parts == [] then "" else parts[0] + Concat(parts[1..])
  }

  lemma ConcatFirst(parts: seq<string>)
    ensures Concat(parts) == if parts == [] then "" else parts[0] + Concat(parts[1..])
  {
  }

  lemma {:induction false} ConcatSnoc(parts: seq<string>, last: string)
    ensures Concat(parts + [last]) == Concat(parts) + last
  {
    if parts == [] {
      assert [] + [last] == [last] && [last][1..] == [] && last + "" == last;
    } else {
      assert (parts + [last])[1..] == parts[1..] + [last];
      ConcatSnoc(parts[1..], last);
    }
  }
}
