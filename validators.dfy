/**
 * The field validators the forms are built from, as predicates over the submitted text.
 * A missing field is modelled as the empty string, which is what the form library hands over.
 */
module Validators {

  /** The characters Python's str.strip() removes (str.isspace() is true for exactly these). */
  predicate IsSpace(c: char) {
    ('\t' <= c <= '\r') || ('\U{1C}' <= c <= '\U{1F}') || c == ' ' || c == '\U{85}' || c == '\U{A0}'
    || c == '\U{1680}' || ('\U{2000}' <= c <= '\U{200A}') || c == '\U{2028}' || c == '\U{2029}'
    || c == '\U{202F}' || c == '\U{205F}' || c == '\U{3000}'
  }

  /** Empty or whitespace only: what DataRequired rejects and what Optional skips. */
  predicate Blank(s: string) {
    forall i :: 0 <= i < |s| ==> IsSpace(s[i])
  }

  /** DataRequired(): the value is present and not whitespace only. */
  predicate Required(s: string) {
    !Blank(s)
  }

  /** Length(min, max) on a field whose chain has no Optional(). */
  predicate LengthIn(s: string, lo: nat, hi: nat) {
    lo <= |s| <= hi
  }

  /** Optional(), Length(max=hi): a blank value stops the chain before Length is consulted. */
  predicate OptionalMaxLength(s: string, hi: nat) {
    Blank(s) || |s| <= hi
  }

  /** Optional(), Length(min=lo): the same, for a lower bound. */
  predicate OptionalMinLength(s: string, lo: nat) {
    Blank(s) || lo <= |s|
  }

  /** Optional(), Email(): the address check is the library's and is given as `isEmail`. */
  predicate OptionalEmail(s: string, isEmail: string -> bool) {
    Blank(s) || isEmail(s)
  }

  /** DataRequired(), Email(). */
  predicate RequiredEmail(s: string, isEmail: string -> bool) {
    Required(s) && isEmail(s)
  }

  /** A select field accepts only the value of one of its choices. */
  predicate OneOf(s: string, choices: seq<string>) {
    s in choices
  }
}
