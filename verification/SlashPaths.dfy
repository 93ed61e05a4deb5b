/**
  The conversions between the dot form and the slash form of a path (agently/utils/DataPathBuilder.py:70-122).
 */
module SlashPaths {
  import opened Chars
  import opened Json
  import opened Texts
  import opened Paths

  // From dots to slashes (lines 70-101).

  /** Where `c` first stands at or after `i`; the length of the text when it does not. */
  function FindFrom(t: string, c: char, i: nat): (j: nat)
    requires i <= |t|
    ensures i <= j <= |t| && (forall k :: i <= k < j ==> t[k] != c) && (j < |t| ==> t[j] == c)
    decreases |t| - i
  {
    if i < |t| && t[i] != c then FindFrom(t, c, i + 1) else i
  }

  lemma FindReaches(t: string, c: char, i: nat, j: nat)
    requires i <= j < |t| && t[j] == c
    ensures FindFrom(t, c, i) <= j
  {
  }

  lemma NoneFromHere(t: string, c: char, i: nat, j: nat)
    requires i <= |t| && FindFrom(t, c, i) == |t| && j < |t| && t[j] == c
    ensures j < i
  {
  }

  /** Every opening bracket is closed further on. */
  predicate Bracketed(t: string) {
    forall i :: 0 <= i < |t| && t[i] == '[' ==> FindFrom(t, ']', i) < |t|
  }

  /** Where the conversion loop goes from index `i`; `find` answers -1 for a missing bracket, so that is index 0. */
  function Turn(t: string, i: nat): (j: nat)
    requires i < |t|
    ensures j <= |t|
  {
    if t[i] == '[' then
      var end := FindFrom(t, ']', i);
      if end < |t| then end + 1 else 0
    else i + 1
  }

  /** The index after `n` turns, or the length of the text once the loop has ended. */
  function After(t: string, n: nat): (i: nat)
    ensures i <= |t|
  {
    if n == 0 then 0
    else
      var i := After(t, n - 1);
      if i < |t| then Turn(t, i) else i
  }

  lemma {:induction false} StaysBefore(t: string, p: nat, n: nat)
    requires p < |t| && t[p] == '[' && FindFrom(t, ']', p) == |t|
    ensures After(t, n) <= p
  {
    if n > 0 {
      StaysBefore(t, p, n - 1);
      var i := After(t, n - 1);
      if t[i] == '[' && FindFrom(t, ']', i) < |t| {
        var end := FindFrom(t, ']', i);
        NoneFromHere(t, ']', p, end);
      }
    }
  }

  lemma {:induction false} MovesOn(t: string, n: nat)
    requires Bracketed(t)
    ensures After(t, n) >= n || After(t, n) == |t|
  {
    if n > 0 { MovesOn(t, n - 1); }
  }

  /** The dot-to-slash loop ends exactly on texts whose opening brackets are all closed. */
  lemma ConversionEndsIff(t: string)
    ensures (exists n :: After(t, n) == |t|) <==> Bracketed(t)
  {
    if Bracketed(t) {
      MovesOn(t, |t|);
    } else {
      var p :| 0 <= p < |t| && t[p] == '[' && FindFrom(t, ']', p) == |t|;
      forall n ensures After(t, n) != |t| { StaysBefore(t, p, n); }
    }
  }

  function Flushed(buffer: string): seq<string> { if buffer == "" then [] else [buffer] }

  /** The parts of `t`, with the part being collected so far. */
  function Tokens(t: string, buffer: string): seq<string>
    requires Bracketed(t)
    decreases |t|
  {
    if t == "" then Flushed(buffer)
    else if t[0] == '[' then
      var end := FindFrom(t, ']', 0);
      BracketedTail(t, end + 1);
      Flushed(buffer) + [t[..end + 1]] + Tokens(t[end + 1..], "")
    else
      BracketedTail(t, 1);
      if t[0] == '.' then Flushed(buffer) + Tokens(t[1..], "") else Tokens(t[1..], buffer + [t[0]])
  }

  lemma {:induction false} FindTail(t: string, c: char, k: nat, i: nat)
    requires k <= i <= |t|
    ensures FindFrom(t[k..], c, i - k) == FindFrom(t, c, i) - k
    decreases |t| - i
  {
    if i < |t| && t[i] != c { FindTail(t, c, k, i + 1); }
  }

  lemma BracketedTail(t: string, k: nat)
    requires Bracketed(t) && k <= |t|
    ensures Bracketed(t[k..])
  {
    forall i | 0 <= i < |t[k..]| && t[k..][i] == '[' ensures FindFrom(t[k..], ']', i) < |t[k..]| {
      assert t[k + i] == '[';
      FindTail(t, ']', k, k + i);
    }
  }

  function Slashed(path: string): string
    requires Bracketed(path)
  {
    if path == "" then "/" else "/" + Join(Tokens(path, ""), '/')
  }

  method ConvertDotToSlash(path: string) returns (slash: string)
    requires Bracketed(path)
    ensures slash == Slashed(path)
  {
    hide *;
    SlashedMeans(path);
    if path == "" { return "/"; }
    var parts := DotTokens(path);
    return "/" + Join(parts, '/');
  }

  /** The loop of the conversion. */
  method DotTokens(path: string) returns (parts: seq<string>)
    requires Bracketed(path)
    ensures parts == Tokens(path, "")
  {
    hide *;
    var buffer, i := "", 0;
    parts := [];
    assert path[0..] == path;
    while i < |path|
      invariant i <= |path| && Bracketed(path[i..]) && parts + Tokens(path[i..], buffer) == Tokens(path, "")
    {
      TokensTurn(path[i..], buffer);
      FlushedMeans(buffer);
      if path[i] == '[' {
        if buffer != "" { parts, buffer := parts + [buffer], ""; }
        BracketedHere(path, i);
        var end := FindFrom(path, ']', i);
        parts, i := parts + [path[i..end + 1]], end + 1;
      } else {
        assert path[i..][1..] == path[i + 1..];
        if path[i] == '.' {
          if buffer != "" { parts, buffer := parts + [buffer], ""; }
        } else {
          buffer := buffer + [path[i]];
        }
        i := i + 1;
      }
    }
    assert path[i..] == "";
    TokensTurn(path[i..], buffer);
    FlushedMeans(buffer);
    if buffer != "" { parts := parts + [buffer]; }
  }

  lemma SlashedMeans(path: string)
    requires Bracketed(path)
    ensures Slashed(path) == if path == "" then "/" else "/" + Join(Tokens(path, ""), '/')
  {
  }

  lemma FlushedMeans(buffer: string)
    ensures Flushed(buffer) == if buffer == "" then [] else [buffer]
  {
  }

  lemma BracketedHere(t: string, i: nat)
    requires i < |t| && Bracketed(t[i..]) && t[i] == '['
    ensures FindFrom(t, ']', i) < |t|
    ensures var end := FindFrom(t[i..], ']', 0);
            end == FindFrom(t, ']', i) - i && t[i..][..end + 1] == t[i..i + end + 1]
              && t[i..][end + 1..] == t[i + end + 1..]
  {
    assert t[i..][0] == '[';
    FindTail(t, ']', i, i);
  }

  lemma TokensTurn(t: string, buffer: string)
    requires Bracketed(t)
    ensures t == "" ==> Tokens(t, buffer) == Flushed(buffer)
    ensures t != "" && t[0] == '[' ==>
      var end := FindFrom(t, ']', 0);
      end < |t| && Bracketed(t[end + 1..])
        && Tokens(t, buffer) == Flushed(buffer) + [t[..end + 1]] + Tokens(t[end + 1..], "")
    ensures t != "" && t[0] != '[' ==> Bracketed(t[1..])
    ensures t != "" && t[0] == '.' ==> Tokens(t, buffer) == Flushed(buffer) + Tokens(t[1..], "")
    ensures t != "" && t[0] != '[' && t[0] != '.' ==> Tokens(t, buffer) == Tokens(t[1..], buffer + [t[0]])
  {
    if t != "" {
      BracketedTail(t, 1);
      if t[0] == '[' { BracketedTail(t, FindFrom(t, ']', 0) + 1); }
    }
  }

  // From slashes to dots (lines 103-122).

  predicate InBrackets(part: string) { part != "" && part[0] == '[' && part[|part| - 1] == ']' }

  function DottedParts(parts: seq<string>, first: bool): string {
    if parts == [] then ""
    else
      (if InBrackets(parts[0]) || first then parts[0] else "." + parts[0]) + DottedParts(parts[1..], false)
  }

  function Dotted(path: string): string {
    if path == "" || path == "/" then "" else DottedParts(Split(Strip(path, '/'), '/'), true)
  }

  method ConvertSlashToDot(path: string) returns (dot: string)
    ensures dot == Dotted(path)
  {
    if path == "" || path == "/" { return ""; }
    var parts := Split(Strip(path, '/'), '/');
    dot := "";
    hide Split, Strip;
    assert parts[0..] == parts;
    for i := 0 to |parts|
      invariant dot + DottedParts(parts[i..], i == 0) == DottedParts(parts, true)
    {
      assert parts[i..][1..] == parts[i + 1..];
      dot := dot + if InBrackets(parts[i]) || i == 0 then parts[i] else "." + parts[i];
    }
  }

  // The two conversions together.

  /** A name that both forms carry, or the wildcard. */
  predicate Walkable(key: Key) { key.Name? ==> Plain(key.text) || key.text == "*" }

  predicate WalkableKeys(keys: seq<Key>) { forall i :: 0 <= i < |keys| ==> Walkable(keys[i]) }

  /** The part of a slash path that stands for a key of a dot path. */
  function Part(key: Key): string {
    match key
    case Index(n) => "[" + Decimal(n) + "]"
    case Name(text) => if text == "*" then "[*]" else text
  }

  function Parts(keys: seq<Key>): (r: seq<string>)
    ensures |r| == |keys|
  {
    if keys == [] then [] else [Part(keys[0])] + Parts(keys[1..])
  }

  lemma PartMeans(key: Key)
    requires Walkable(key)
    ensures Part(key) != "" && '/' !in Part(key)
    ensures InBrackets(Part(key)) <==> key.Index? || key.text == "*"
    ensures InBrackets(Part(key)) ==>
      exists inner :: Inner(Part(key), inner) && DotPart(key, false) == DotPart(key, true) == Part(key)
    ensures !InBrackets(Part(key)) ==> key.Name? && Part(key) == key.text && Plain(key.text)
    ensures !InBrackets(Part(key)) ==> DotPart(key, true) == Part(key) && DotPart(key, false) == "." + Part(key)
  {
    match key
    case Index(n) =>
      var d := Decimal(n);
      assert forall i :: 0 <= i < |d| ==> Digit(d[i]);
      assert '/' !in d;
      assert Inner(Part(key), d);
    case Name(text) =>
      if text == "*" { assert Inner(Part(key), "*"); }
  }

  /** `part` is `inner` in brackets, and `inner` holds no bracket. */
  predicate Inner(part: string, inner: string) {
    part == "[" + inner + "]" && ']' !in inner
  }

  lemma FindBracket(part: string, inner: string, rest: string)
    requires Inner(part, inner)
    ensures FindFrom(part + rest, ']', 0) == |part| - 1
    ensures Bracketed(rest) ==> Bracketed(part + rest)
  {
    hide Inner;
    InnerMeans(part, inner);
    var t := part + rest;
    assert t[|part| - 1] == ']' && forall k :: 1 <= k < |part| - 1 ==> t[k] == inner[k - 1];
    FindIs(t, ']', 0, |part| - 1);
    assert t[|part|..] == rest;
    if Bracketed(rest) {
      forall i | 0 <= i < |t| && t[i] == '[' ensures FindFrom(t, ']', i) < |t| {
        if i >= |part| {
          assert rest[i - |part|] == '[';
          FindTail(t, ']', |part|, i);
        } else {
          FindReaches(t, ']', i, |part| - 1);
        }
      }
    }
  }

  lemma InnerMeans(part: string, inner: string)
    requires Inner(part, inner)
    ensures part == "[" + inner + "]" && forall k :: 0 <= k < |inner| ==> inner[k] != ']'
  {
  }

  lemma FindIs(t: string, c: char, i: nat, j: nat)
    requires i <= j < |t| && t[j] == c && forall k :: i <= k < j ==> t[k] != c
    ensures FindFrom(t, c, i) == j
  {
  }

  lemma {:induction false} TokensOfName(name: string, rest: string, buffer: string)
    requires '.' !in name && '[' !in name && Bracketed(rest)
    ensures Bracketed(name + rest) && Tokens(name + rest, buffer) == Tokens(rest, buffer + name)
    decreases |name|
  {
    hide *;
    var t := name + rest;
    if name == "" {
      assert t == rest && buffer + name == buffer;
    } else {
      assert t[1..] == name[1..] + rest && t[0] == name[0];
      TokensOfName(name[1..], rest, buffer + [t[0]]);
      BracketedNext(t);
      TokensTurn(t, buffer);
      assert buffer + [t[0]] + name[1..] == buffer + name;
    }
  }

  lemma BracketedNext(t: string)
    requires t != "" && t[0] != '[' && Bracketed(t[1..])
    ensures Bracketed(t)
  {
    forall i | 0 <= i < |t| && t[i] == '[' ensures FindFrom(t, ']', i) < |t| {
      assert t[1..][i - 1] == '[';
      FindTail(t, ']', 1, i);
    }
  }

  lemma PartsFirst(keys: seq<Key>)
    ensures keys == [] ==> Parts(keys) == [] && DotParts(keys, false) == DotParts(keys, true) == ""
    ensures keys != [] ==> Parts(keys) == [Part(keys[0])] + Parts(keys[1..])
    ensures forall first :: keys != [] ==> DotParts(keys, first) == DotPart(keys[0], first) + DotParts(keys[1..], false)
  {
  }

  lemma WalkableTail(keys: seq<Key>)
    requires WalkableKeys(keys) && keys != []
    ensures Walkable(keys[0]) && WalkableKeys(keys[1..])
  {
  }

  /** The loop takes the rest of a dot path apart into the parts of its keys. */
  lemma {:induction false} TokensOfParts(keys: seq<Key>, buffer: string)
    requires WalkableKeys(keys)
    ensures Bracketed(DotParts(keys, false)) && Tokens(DotParts(keys, false), buffer) == Flushed(buffer) + Parts(keys)
    decreases |keys|
  {
    hide *;
    PartsFirst(keys);
    var t := DotParts(keys, false);
    if keys == [] {
      assert Bracketed("") by { NoBrackets(); }
      TokensTurn(t, buffer);
      assert Flushed(buffer) + [] == Flushed(buffer);
    } else {
      WalkableTail(keys);
      PartMeans(keys[0]);
      var part, rest := Part(keys[0]), DotParts(keys[1..], false);
      if InBrackets(part) {
        var inner :| Inner(part, inner);
        TokensOfParts(keys[1..], "");
        InnerMeans(part, inner);
        FindBracket(part, inner, rest);
        TokensTurn(t, buffer);
        assert t == part + rest && t[..|part|] == part && t[|part|..] == rest;
        FlushedNothing();
        assert Flushed(buffer) + [part] + ([] + Parts(keys[1..])) == Flushed(buffer) + Parts(keys);
      } else {
        TokensOfParts(keys[1..], part);
        NameParts(part, rest, buffer);
        FlushedName(part);
        assert t == "." + part + rest;
        assert Flushed(buffer) + ([part] + Parts(keys[1..])) == Flushed(buffer) + Parts(keys);
      }
    }
  }

  lemma NoBrackets()
    ensures Bracketed("")
  {
  }

  lemma FlushedNothing()
    ensures Flushed("") == []
  {
  }

  lemma FlushedName(name: string)
    requires name != ""
    ensures Flushed(name) == [name]
  {
  }

  lemma NameParts(name: string, rest: string, buffer: string)
    requires Plain(name) && Bracketed(rest)
    ensures Bracketed("." + name + rest) && Tokens("." + name + rest, buffer) == Flushed(buffer) + Tokens(rest, name)
  {
    hide Tokens, Bracketed;
    var t := "." + name + rest;
    TokensOfName(name, rest, "");
    assert t[1..] == name + rest && "" + name == name;
    BracketedNext(t);
    TokensTurn(t, buffer);
  }

  lemma TokensOfPath(keys: seq<Key>)
    requires WalkableKeys(keys)
    ensures Bracketed(DotPath(keys)) && Tokens(DotPath(keys), "") == Parts(keys)
  {
    hide *;
    DotPathIs(keys);
    PartsFirst(keys);
    FlushedNothing();
    if keys == [] || InBrackets(Part(keys[0])) {
      if keys != [] { WalkableTail(keys); PartMeans(keys[0]); }
      TokensOfParts(keys, "");
      assert [] + Parts(keys) == Parts(keys);
    } else {
      WalkableTail(keys);
      PartMeans(keys[0]);
      var name, rest := keys[0].text, DotParts(keys[1..], false);
      PlainFree(name);
      TokensOfParts(keys[1..], name);
      TokensOfName(name, rest, "");
      assert "" + name == name;
      FlushedName(name);
    }
  }

  lemma DotPathIs(keys: seq<Key>)
    ensures DotPath(keys) == DotParts(keys, true)
  {
  }

  lemma PlainFree(name: string)
    requires Plain(name)
    ensures '.' !in name && '[' !in name && name != ""
  {
  }

  lemma {:induction false} DottedOfParts(keys: seq<Key>, first: bool)
    requires WalkableKeys(keys)
    ensures DottedParts(Parts(keys), first) == DotParts(keys, first)
    decreases |keys|
  {
    PartsFirst(keys);
    if keys != [] {
      PartMeans(keys[0]);
      assert Parts(keys)[1..] == Parts(keys[1..]);
      DottedOfParts(keys[1..], false);
      hide *;
    }
  }

  lemma {:induction false} PartsAreFree(keys: seq<Key>)
    requires WalkableKeys(keys)
    ensures forall i :: 0 <= i < |keys| ==>
      Parts(keys)[i] == Part(keys[i]) && Parts(keys)[i] != "" && '/' !in Parts(keys)[i]
    decreases |keys|
  {
    hide Part, Walkable;
    if keys != [] {
      WalkableTail(keys);
      PartMeans(keys[0]);
      PartsAreFree(keys[1..]);
    }
  }

  lemma {:induction false} JoinEnds(parts: seq<string>, c: char)
    requires parts != [] && forall i :: 0 <= i < |parts| ==> parts[i] != "" && c !in parts[i]
    ensures var t := Join(parts, c); t != "" && t[0] != c && t[|t| - 1] != c
  {
    if |parts| > 1 { JoinEnds(parts[1..], c); }
  }

  lemma StripSlash(t: string)
    requires t != "" && t[0] != '/' && t[|t| - 1] != '/'
    ensures Strip("/" + t, '/') == t
  {
    assert ("/" + t)[1..] == t;
  }

  /** A dot path survives the way to the slash form and back, wildcards included. */
  lemma DotSlashRoundTrip(keys: seq<Key>)
    requires WalkableKeys(keys)
    ensures Bracketed(DotPath(keys)) && Dotted(Slashed(DotPath(keys))) == DotPath(keys)
  {
    TokensOfPath(keys);
    hide Tokens, Bracketed, Parts, DottedParts, DotParts, Join, Split, Strip;
    DottedOfParts(keys, true);
    PartsFirst(keys);
    if keys != [] {
      var parts := Parts(keys);
      PartsAreFree(keys);
      JoinEnds(parts, '/');
      var t := Join(parts, '/');
      StripSlash(t);
      SplitJoin(parts, '/');
      WalkableTail(keys);
      PathIsText(keys);
      assert "/" + t != "/" && "/" + t != "";
    }
  }

  lemma PathIsText(keys: seq<Key>)
    requires keys != [] && Walkable(keys[0])
    ensures DotPath(keys) != ""
  {
    PartMeans(keys[0]);
    assert DotPart(keys[0], true) == Part(keys[0]);
  }
}
