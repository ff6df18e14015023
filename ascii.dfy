/** ASCII case mapping, standing in for `String.prototype.toUpperCase` and
    `toLowerCase` on the characters a method name or header key uses. */
module Ascii {

  predicate IsLower(c: char) { 'a' <= c <= 'z' }

  predicate IsUpper(c: char) { 'A' <= c <= 'Z' }

  /** A lower-case letter moves to its upper-case partner; nothing else moves. */
  function UpperChar(c: char): (u: char)
  {
    if IsLower(c) then (c as int - 32) as char else c
  }

  function LowerChar(c: char): (l: char)
  {
    if IsUpper(c) then (c as int + 32) as char else c
  }

  /** Upper-cases every ASCII letter; the result has no lower-case letter
      left and every other character is kept in place. */
  function ToUpper(s: string): (r: string)
    ensures |r| == |s|
    ensures forall i :: 0 <= i < |s| ==> r[i] == UpperChar(s[i])
    ensures forall i :: 0 <= i < |r| ==> !IsLower(r[i])
  {
    if s == [] then [] else [UpperChar(s[0])] + ToUpper(s[1..])
  }

  /** Lower-cases every ASCII letter; the result has no upper-case letter
      left and every other character is kept in place. */
  function ToLower(s: string): (r: string)
    ensures |r| == |s|
    ensures forall i :: 0 <= i < |s| ==> r[i] == LowerChar(s[i])
    ensures forall i :: 0 <= i < |r| ==> !IsUpper(r[i])
  {
    if s == [] then [] else [LowerChar(s[0])] + ToLower(s[1..])
  }

  /** `ToLower` is determined by its letter-by-letter effect. */
  lemma ToLowerIs(s: string, t: string)
    requires |s| == |t|
    requires forall i :: 0 <= i < |s| ==> LowerChar(s[i]) == t[i]
    ensures ToLower(s) == t
  {
  }

  /** The key clients send for the body type lower-cases to `content-type`. */
  lemma ContentTypeLowerCase()
    ensures ToLower("Content-Type") == "content-type"
  {
    ToLowerIs("Content-Type", "content-type");
  }
}
