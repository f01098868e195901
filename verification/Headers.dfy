/** The header lists (hlist_t) of cntlm-0.92.3/utils.c: names compare without regard to case, the first match counts. */
module Headers {
  import opened Options

  datatype Header = Header(key: string, value: string)

  function Lower(c: char): char {
    if 'A' <= c <= 'Z' then c + 32 as char else c
  }

  function Lowercase(s: string): (low: string)
    ensures |low| == |s|
  {
    seq(|s|, i requires 0 <= i < |s| => Lower(s[i]))
  }

  /** strcasecmp finds no difference. */
  predicate SameName(a: string, b: string) {
    Lowercase(a) == Lowercase(b)
  }

  predicate MatchesAt(needle: string, s: string, i: nat) {
    i + |needle| <= |s| && s[i..i + |needle|] == needle
  }

  /** strstr finds the needle. */
  predicate Occurs(needle: string, s: string) {
    exists i | 0 <= i <= |s| :: MatchesAt(needle, s, i)
  }

  /** The position of the first header of that name, or the length of the list. */
  function Find(list: seq<Header>, key: string): (i: nat)
    ensures i <= |list|
    ensures i < |list| ==> SameName(list[i].key, key)
    ensures forall j :: 0 <= j < i ==> !SameName(list[j].key, key)
  {
    if list == [] || SameName(list[0].key, key) then 0 else 1 + Find(list[1..], key)
  }

  predicate Has(list: seq<Header>, key: string) {
    Find(list, key) < |list|
  }

  function Get(list: seq<Header>, key: string): Option<string> {
    var i := Find(list, key);
    if i < |list| then Some(list[i].value) else None
  }

  /** hlist_mod: the first header of that name gets the value; one is appended if there is none and it is asked for. */
  function Mod(list: seq<Header>, key: string, value: string, add: bool): seq<Header> {
    var i := Find(list, key);
    if i < |list| then list[i := Header(list[i].key, value)]
    else if add then list + [Header(key, value)]
    else list
  }

  function Del(list: seq<Header>, key: string): seq<Header> {
    var i := Find(list, key);
    if i < |list| then list[..i] + list[i + 1..] else list
  }

  /** hlist_subcmp: the text occurs in the value of the first header of that name, whatever the case. */
  predicate Mentions(list: seq<Header>, key: string, text: string) {
    var value := Get(list, key);
    value.Some? && Occurs(Lowercase(text), Lowercase(value.value))
  }

  /** The list without any header of that name, everything else in its order. */
  function Without(list: seq<Header>, key: string): (rest: seq<Header>) {
    if list == [] then []
    else if SameName(list[0].key, key) then Without(list[1..], key)
    else [list[0]] + Without(list[1..], key)
  }

  /** No header of that name is left, and no other header has moved or changed. */
  lemma {:induction false} WithoutHasNone(list: seq<Header>, key: string, other: string)
    ensures !Has(Without(list, key), key)
    ensures !SameName(other, key) ==> Get(Without(list, key), other) == Get(list, other)
  {
    if list != [] {
      WithoutHasNone(list[1..], key, other);
      var rest := Without(list[1..], key);
      if !SameName(list[0].key, key) {
        assert ([list[0]] + rest)[1..] == rest;
      }
    }
  }

  /** Finding, reading, changing and deleting header by header. */
  lemma FindCons(first: Header, rest: seq<Header>, key: string)
    ensures Find([first] + rest, key) == if SameName(first.key, key) then 0 else 1 + Find(rest, key)
    ensures ([first] + rest)[1..] == rest
  {
    hide SameName;
    assert ([first] + rest)[1..] == rest;
  }

  lemma GetCons(first: Header, rest: seq<Header>, key: string)
    ensures Get([first] + rest, key) == if SameName(first.key, key) then Some(first.value) else Get(rest, key)
  {
    hide SameName, Find;
    FindCons(first, rest, key);
  }

  lemma DelCons(first: Header, rest: seq<Header>, key: string)
    ensures Del([first] + rest, key) == if SameName(first.key, key) then rest else [first] + Del(rest, key)
  {
    hide SameName, Find;
    FindCons(first, rest, key);
    CutCons(first, rest, Find(rest, key));
  }

  lemma CutCons(first: Header, rest: seq<Header>, i: nat)
    requires i <= |rest|
    ensures var list := [first] + rest;
            && list[..1 + i] == [first] + rest[..i]
            && (i < |rest| ==> list[..1 + i] + list[1 + i + 1..] == [first] + (rest[..i] + rest[i + 1..]))
            && list[..0] + list[1..] == rest
  {
  }

  lemma ModCons(first: Header, rest: seq<Header>, key: string, value: string, add: bool)
    ensures Mod([first] + rest, key, value, add)
            == if SameName(first.key, key) then [Header(first.key, value)] + rest
                else [first] + Mod(rest, key, value, add)
  {
    hide SameName, Find;
    FindCons(first, rest, key);
  }

  lemma {:induction false} WithoutDel(list: seq<Header>, key: string)
    ensures Without(Del(list, key), key) == Without(list, key)
    ensures !Has(list, key) ==> Without(list, key) == list
  {
    hide SameName, Del, Find;
    if list == [] {
      DelNothing(key);
    } else {
      var first, rest := list[0], list[1..];
      assert list == [first] + rest;
      WithoutDel(rest, key);
      DelCons(first, rest, key);
      FindCons(first, rest, key);
      if !SameName(first.key, key) {
        assert ([first] + Del(rest, key))[1..] == Del(rest, key);
      }
    }
  }

  /** while (hlist_get(...)) hlist_del(...) */
  method DeleteAll(list: seq<Header>, key: string) returns (rest: seq<Header>)
    ensures rest == Without(list, key)
  {
    hide Without, SameName;
    rest := list;
    while Get(rest, key) != None
      invariant Without(rest, key) == Without(list, key)
      decreases |rest|
    {
      WithoutDel(rest, key);
      rest := Del(rest, key);
    }
    WithoutDel(rest, key);
  }

  /** Deleting a header leaves those of other names alone. */
  lemma {:induction false} GetDel(list: seq<Header>, key: string, other: string)
    requires !SameName(other, key)
    ensures Get(Del(list, key), other) == Get(list, other)
  {
    hide Get, Del, Lowercase;
    if list == [] {
      DelNothing(key);
    } else {
      var first, rest := list[0], list[1..];
      assert list == [first] + rest;
      DelCons(first, rest, key);
      GetCons(first, rest, other);
      if !SameName(first.key, key) {
        GetCons(first, Del(rest, key), other);
        GetDel(rest, key, other);
      }
    }
  }

  lemma DelNothing(key: string)
    ensures Del([], key) == []
  {
  }

  /** After hlist_mod with the flag set, the name has the value, and other names are untouched. */
  lemma {:induction false} GetMod(list: seq<Header>, key: string, value: string, add: bool, other: string)
    ensures add || Has(list, key) ==> Get(Mod(list, key, value, add), key) == Some(value)
    ensures !SameName(other, key) ==> Get(Mod(list, key, value, add), other) == Get(list, other)
  {
    hide Get, Mod, Lowercase, Find;
    if list == [] {
      ModNothing(key, value, add, other);
    } else {
      var first, rest := list[0], list[1..];
      assert list == [first] + rest;
      ModCons(first, rest, key, value, add);
      FindCons(first, rest, key);
      GetCons(first, rest, other);
      if SameName(first.key, key) {
        GetCons(Header(first.key, value), rest, key);
        GetCons(Header(first.key, value), rest, other);
      } else {
        GetMod(rest, key, value, add, other);
        GetCons(first, Mod(rest, key, value, add), key);
        GetCons(first, Mod(rest, key, value, add), other);
      }
    }
  }

  lemma ModNothing(key: string, value: string, add: bool, other: string)
    ensures !Has([], key) && Get([], other) == None
    ensures add ==> Get(Mod([], key, value, add), key) == Some(value)
    ensures !SameName(other, key) ==> Get(Mod([], key, value, add), other) == None
  {
    hide Lowercase;
    assert Mod([], key, value, add) == if add then [Header(key, value)] else [];
  }

  /** The values of all headers of a name, in order. */
  function Values(list: seq<Header>, key: string): seq<string> {
    if list == [] then []
    else if SameName(list[0].key, key) then [list[0].value] + Values(list[1..], key)
    else Values(list[1..], key)
  }

  lemma ValuesCons(first: Header, rest: seq<Header>, key: string)
    ensures Values([first] + rest, key) == (if SameName(first.key, key) then [first.value] else []) + Values(rest, key)
  {
    hide SameName;
    assert ([first] + rest)[1..] == rest;
    assert [] + Values(rest, key) == Values(rest, key);
  }

  /** Deleting takes away the first value of the name, and no other. */
  lemma {:induction false} ValuesDel(list: seq<Header>, key: string, other: string)
    ensures var all := Values(list, key);
            Values(Del(list, key), key) == if all == [] then [] else all[1..]
    ensures !SameName(other, key) ==> Values(Del(list, key), other) == Values(list, other)
  {
    hide Del, Lowercase;
    if list == [] {
      DelNothing(key);
    } else {
      var first, rest := list[0], list[1..];
      assert list == [first] + rest;
      DelCons(first, rest, key);
      ValuesCons(first, rest, key);
      ValuesCons(first, rest, other);
      if !SameName(first.key, key) {
        ValuesDel(rest, key, other);
        ValuesCons(first, Del(rest, key), key);
        ValuesCons(first, Del(rest, key), other);
      }
    }
  }

  /** Changing with the flag set replaces the first value of the name or adds one, and leaves all others. */
  lemma {:induction false} ValuesMod(list: seq<Header>, key: string, value: string, other: string)
    ensures var all := Values(list, key);
            Values(Mod(list, key, value, true), key) == [value] + (if all == [] then [] else all[1..])
    ensures !SameName(other, key) ==> Values(Mod(list, key, value, true), other) == Values(list, other)
  {
    hide Mod, Lowercase;
    if list == [] {
      ValuesOfNew(key, value, other);
    } else {
      var first, rest := list[0], list[1..];
      assert list == [first] + rest;
      ModCons(first, rest, key, value, true);
      ValuesCons(first, rest, key);
      ValuesCons(first, rest, other);
      if SameName(first.key, key) {
        ValuesCons(Header(first.key, value), rest, key);
        ValuesCons(Header(first.key, value), rest, other);
      } else {
        ValuesMod(rest, key, value, other);
        ValuesCons(first, Mod(rest, key, value, true), key);
        ValuesCons(first, Mod(rest, key, value, true), other);
      }
    }
  }

  lemma ValuesOfNew(key: string, value: string, other: string)
    ensures Values(Mod([], key, value, true), key) == [value]
    ensures !SameName(other, key) ==> Values(Mod([], key, value, true), other) == []
  {
    hide Lowercase;
    assert Mod([], key, value, true) == [Header(key, value)];
  }
}
