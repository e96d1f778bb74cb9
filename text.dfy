/** String helpers shared by every generator. */
module Text {

  /** `toUpperCase` on one character, for the ASCII letters. */
  function UpperAscii(c: char): (u: char)
    ensures 'a' <= c <= 'z' ==> 'A' <= u <= 'Z' && u as int == c as int - 32
    ensures !('a' <= c <= 'z') ==> u == c
  {
    if 'a' <= c <= 'z' then (c as int - 32) as char else c
  }

  /**
    `s.charAt(0).toUpperCase() + s.slice(1)`: only the first character
    changes, and the empty string stays empty.
  */
  function Capitalize(s: string): (r: string)
    ensures |r| == |s|
    ensures |s| > 0 ==> r[0] == UpperAscii(s[0]) && r[1..] == s[1..]
  {
    if s == "" then "" else [UpperAscii(s[0])] + s[1..]
  }

  /** `Array.prototype.join`. */
  function Join(parts: seq<string>, sep: string): string
  {
    if |parts| == 0 then ""
    else if |parts| == 1 then parts[0]
    else parts[0] + sep + Join(parts[1..], sep)
  }

  /** Appending `b` then `d` is appending `b + d`: the step of every accumulating loop. */
  lemma AppendShift<T>(a: seq<T>, b: seq<T>, c: seq<T>, d: seq<T>)
    requires c == b + d
    ensures a + c == (a + b) + d
  {
  }

  lemma ConsSlice<T>(s: seq<T>, i: nat)
    requires i < |s|
    ensures [s[i]] + s[i + 1..] == s[i..]
  {
  }

  lemma TakeSnoc<T>(s: seq<T>, i: nat)
    requires i < |s|
    ensures s[..i + 1] == s[..i] + [s[i]]
  {
  }

  lemma SnocSnoc<T>(s: seq<T>, x: T, y: T)
    ensures s + [x] + [y] == s + [x, y]
  {
  }

  lemma EmptyAppend<T>(s: seq<T>)
    ensures [] + s == s
  {
  }

  lemma PairSnoc<T>(x: T, y: T, z: T)
    ensures [x, y] + [z] == [x, y, z]
  {
  }

  lemma Join2(p: string, q: string, sep: string)
    ensures Join([p, q], sep) == p + sep + q
  {
    assert [p, q][1..] == [q];
  }

  lemma Join3(p: string, q: string, r: string, sep: string)
    ensures Join([p, q, r], sep) == p + sep + (q + sep + r)
  {
    assert [p, q, r][1..] == [q, r];
    Join2(q, r, sep);
  }

  lemma JoinStartsWithFirst(parts: seq<string>, sep: string)
    requires |parts| > 0
    ensures parts[0] <= Join(parts, sep)
  {
  }

  /**
    The item name used for an array of objects:
    `name.endsWith("s") ? name.slice(0, -1) : name + "Item"`.
  */
  function Singular(name: string): (r: string)
    ensures |name| > 0 && name[|name| - 1] == 's' ==> r + "s" == name
    ensures !(|name| > 0 && name[|name| - 1] == 's') ==> r == name + "Item"
  {
    if |name| > 0 && name[|name| - 1] == 's' then name[..|name| - 1] else name + "Item"
  }

  /** `Array.prototype.reverse`. */
  function Reverse<T>(s: seq<T>): (r: seq<T>)
    ensures |r| == |s|
    ensures forall i :: 0 <= i < |s| ==> r[i] == s[|s| - 1 - i]
  {
    if s == [] then [] else [s[|s| - 1]] + Reverse(s[..|s| - 1])
  }

  /** Strings appended one after another, as a `+=` loop builds them. */
  function Concat(parts: seq<string>): string
  {
    if parts == [] then "" else parts[0] + Concat(parts[1..])
  }
}
