/** JSON values as Python holds them, the paths into them, and the dot form of a path. */
module Json {
  import opened Chars

  datatype Member = Member(key: string, value: Value)

  /** Objects keep the order of insertion, as Python dictionaries do. Numbers and words are lexemes. */
  datatype Value =
    | Str(text: string)
    | Num(lexeme: string)
    | Word(lexeme: string)
    | Obj(members: seq<Member>)
    | Arr(items: seq<Value>)

  const NULL := Word("null")

  /** The position of a key, or the number of members. */
  function Find(members: seq<Member>, key: string): (i: nat)
    ensures i <= |members|
    ensures i < |members| ==> members[i].key == key
    ensures forall k :: 0 <= k < i ==> members[k].key != key
  {
    if members == [] then 0 else if members[0].key == key then 0 else 1 + Find(members[1..], key)
  }

  /** `value[key] = child`: replaces in place or adds at the end. */
  function Put(members: seq<Member>, key: string, value: Value): (r: seq<Member>)
    ensures Find(members, key) == |members| ==> r == members + [Member(key, value)]
  {
    var i := Find(members, key);
    if i < |members| then members[i := Member(key, value)] else members + [Member(key, value)]
  }

  /** One step of a path: a name in an object or an index in an array. */
  datatype Key = Name(text: string) | Index(index: nat)

  function Lookup(v: Value, keys: seq<Key>): Option<Value>
    decreases |keys|
  {
    if keys == [] then Some(v)
    else
      match keys[0]
      case Name(text) =>
        if v.Obj? && Find(v.members, text) < |v.members| then
          Lookup(v.members[Find(v.members, text)].value, keys[1..])
        else None
      case Index(i) =>
        if v.Arr? && i < |v.items| then Lookup(v.items[i], keys[1..]) else None
  }

  predicate DistinctMembers(members: seq<Member>) {
    forall i, j :: 0 <= i < j < |members| ==> members[i].key != members[j].key
  }

  lemma LookupMember(members: seq<Member>, j: nat, rel: seq<Key>)
    requires DistinctMembers(members) && j < |members|
    ensures Lookup(Obj(members), [Name(members[j].key)] + rel) == Lookup(members[j].value, rel)
  {
    assert Find(members, members[j].key) == j;
    assert ([Name(members[j].key)] + rel)[1..] == rel;
  }

  lemma LookupItem(items: seq<Value>, j: nat, rel: seq<Key>)
    requires j < |items|
    ensures Lookup(Arr(items), [Index(j)] + rel) == Lookup(items[j], rel)
  {
    assert ([Index(j)] + rel)[1..] == rel;
  }

  // Dot paths (agently/utils/DataPathBuilder.py:42-57).

  function DigitChar(n: nat): (c: char)
    requires n < 10
    ensures '0' <= c <= '9'
  {
    '0' + n as char
  }

  function Decimal(n: nat): (r: string)
    ensures r != "" && forall i :: 0 <= i < |r| ==> '0' <= r[i] <= '9'
  {
    if n < 10 then [DigitChar(n)] else Decimal(n / 10) + [DigitChar(n % 10)]
  }

  function DotPart(key: Key, first: bool): string {
    match key
    case Index(i) => "[" + Decimal(i) + "]"
    case Name(text) =>
      if text == "*" || text == "[]" || text == "[*]" then "[*]"
      else if first then text
      else "." + text
  }

  function DotParts(keys: seq<Key>, first: bool): string
    decreases |keys|
  {
    if keys == [] then "" else DotPart(keys[0], first) + DotParts(keys[1..], false)
  }

  function DotPath(keys: seq<Key>): string { DotParts(keys, true) }

  method BuildDotPath(keys: seq<Key>) returns (path: string)
    ensures path == DotPath(keys)
  {
    hide DotPart, DotParts;
    path := "";
    assert keys[0..] == keys;
    for i := 0 to |keys|
      invariant path + DotParts(keys[i..], i == 0) == DotPath(keys)
    {
      assert keys[i..][1..] == keys[i + 1..];
      DotPartsTurn(keys[i..], i == 0);
      path := path + DotPart(keys[i], i == 0);
    }
    DotPartsTurn(keys[|keys|..], keys == []);
  }

  lemma DotPartsTurn(keys: seq<Key>, first: bool)
    ensures DotParts(keys, first) == if keys == [] then "" else DotPart(keys[0], first) + DotParts(keys[1..], false)
  {
  }
}
