/**
 A model of the part of Go's `strings` package the environment source uses:
 upper-casing a key before it is looked up. Only ASCII letters are mapped.
 */
module Strings {

  predicate IsLower(c: char) {
    'a' <= c <= 'z'
  }

  function UpperChar(c: char): char {
    if IsLower(c) then (c as int - 32) as char else c
  }

  /** `strings.ToUpper` on ASCII: every lower-case letter becomes its capital,
      every other character is kept, and no lower-case letter is left. */
  function ToUpper(s: string): (u: string)
    ensures |u| == |s|
    ensures forall i | 0 <= i < |s| ::
      if IsLower(s[i]) then u[i] as int == s[i] as int - 32 else u[i] == s[i]
    ensures forall i | 0 <= i < |u| :: !IsLower(u[i])
  {
    if |s| == 0 then "" else [UpperChar(s[0])] + ToUpper(s[1..])
  }

  /** Upper-casing an upper-cased key changes nothing. */
  lemma ToUpperIdempotent(s: string)
    ensures ToUpper(ToUpper(s)) == ToUpper(s)
  {
    var u := ToUpper(s);
    assert forall i | 0 <= i < |u| :: ToUpper(u)[i] == u[i];
  }

}
