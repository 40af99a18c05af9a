/** Searching in strings the way `std::string::find` and `QString::lastIndexOf` do. */
module Strings {

  datatype Option<+T> = None | Some(value: T)

  /** `sub` occurs in `s` at position `i`. */
  predicate Matches(s: string, sub: string, i: int) {
    0 <= i && i + |sub| <= |s| && s[i..i + |sub|] == sub
  }

  /** The first occurrence of `sub` in `s` at or after `from`, `None` for `npos`. */
  function Find(s: string, sub: string, from: nat): (r: Option<nat>)
    ensures r.Some? ==> from <= r.value && Matches(s, sub, r.value)
    ensures r.Some? ==> forall i :: from <= i < r.value ==> !Matches(s, sub, i)
    ensures r.None? ==> forall i :: from <= i ==> !Matches(s, sub, i)
    decreases |s| - from
  {
    if from + |sub| > |s| then None
    else if Matches(s, sub, from) then Some(from)
    else Find(s, sub, from + 1)
  }

  /** The last occurrence of `sub` in `s` at or before `from`, -1 when there is none. */
  function LastIndexFrom(s: string, sub: string, from: int): (r: int)
    ensures r == -1 || (0 <= r <= from && Matches(s, sub, r))
    ensures forall i :: r < i <= from ==> !Matches(s, sub, i)
    decreases from + 1
  {
    if from < 0 then -1
    else if Matches(s, sub, from) then from
    else LastIndexFrom(s, sub, from - 1)
  }

  function LastIndexOf(s: string, sub: string): (r: int)
    ensures r == -1 || Matches(s, sub, r)
    ensures forall i :: r < i ==> !Matches(s, sub, i)
  {
    LastIndexFrom(s, sub, |s|)
  }

  /** Decimal text of a one-digit number. */
  function Digit(n: int): (s: string)
    ensures |s| == 1 && s[0] != ' ' && s[0] != '['
  {
    if 0 <= n <= 9 then [['0', '1', '2', '3', '4', '5', '6', '7', '8', '9'][n]] else "?"
  }
}
