/** The static predicates of `Validator`. No screen calls them; the model
    keeps them so that the screens' own checks can be compared with them. */
module Validator {
  import opened Common

  /** A username is valid when it has at least three characters; the
      separate non-emptiness test adds nothing. */
  function IsValidUsername(username: string): (ok: bool)
    ensures ok <==> |username| >= 3
  {
    username != [] && |username| >= 3
  }

  /** A password is valid when it has at least six characters. */
  function IsValidPassword(password: string): (ok: bool)
    ensures ok <==> |password| >= 6
  {
    password != [] && |password| >= 6
  }

  /** The confirmation must equal the password character by character.
      Swift's `==` on strings compares up to canonical equivalence; the
      model compares code points. */
  function DoPasswordsMatch(password: string, confirmPassword: string): (ok: bool)
    ensures ok <==> |password| == |confirmPassword|
                    && forall i :: 0 <= i < |password| ==> password[i] == confirmPassword[i]
  {
    password == confirmPassword
  }

  /** Matching is an equivalence: reflexive, symmetric and transitive. */
  lemma PasswordsMatchIsEquivalence(a: string, b: string, c: string)
    ensures DoPasswordsMatch(a, a)
    ensures DoPasswordsMatch(a, b) == DoPasswordsMatch(b, a)
    ensures DoPasswordsMatch(a, b) && DoPasswordsMatch(b, c) ==> DoPasswordsMatch(a, c)
  {
  }

  /** Order number, customer name and address only have to be non-empty.
      Nothing is trimmed here, so a field of blanks passes. */
  function IsValidOrderNumber(orderNumber: string): (ok: bool)
    ensures ok <==> |orderNumber| > 0
  {
    orderNumber != []
  }

  function IsValidCustomerName(name: string): (ok: bool)
    ensures ok <==> |name| > 0
  {
    name != []
  }

  function IsValidAddress(address: string): (ok: bool)
    ensures ok <==> |address| > 0
  {
    address != []
  }

  /** One position of the pattern `[0-9+]`: an ASCII digit or a plus sign. */
  predicate IsPhoneChar(c: char)
  {
    '0' <= c <= '9' || c == '+'
  }

  /** Shortest and longest phone number the pattern `^[0-9+]{10,15}$` admits. */
  const MinPhoneLength := 10
  const MaxPhoneLength := 15

  /** The language of `^[0-9+]{10,15}$`. */
  ghost predicate MatchesPhonePattern(phone: string)
  {
    MinPhoneLength <= |phone| <= MaxPhoneLength && forall i :: 0 <= i < |phone| ==> IsPhoneChar(phone[i])
  }

  /** Whole-string match of `^[0-9+]{10,15}$`, scanning the string the way a
      regular-expression engine does: the class is tried at each position
      and the repetition count is checked against its bounds at the end. */
  method IsValidPhoneNumber(phone: string) returns (ok: bool)
    ensures ok <==> MatchesPhonePattern(phone)
  {
    var count := 0;
    while count < |phone| && count < MaxPhoneLength && IsPhoneChar(phone[count])
      invariant 0 <= count <= |phone| && count <= MaxPhoneLength
      invariant forall i :: 0 <= i < count ==> IsPhoneChar(phone[i])
    {
      count := count + 1;
    }
    ok := count == |phone| && count >= MinPhoneLength;
  }

  /** `Double(total)` is not part of this model: parsing is the argument
      `parse`. A total is valid when it parses and is strictly positive. */
  function IsValidOrderTotal(total: string, parse: string -> Option<real>): (ok: bool)
    ensures ok ==> parse(total).Some?
    ensures ok <==> parse(total) != None && parse(total).value > 0.0
  {
    match parse(total)
    case Some(v) => v > 0.0
    case None => false
  }

  /** "0" parses but is not a valid total: the total must be strictly
      positive. */
  lemma ZeroTotalIsInvalid(parse: string -> Option<real>)
    requires parse("0") == Some(0.0)
    ensures !IsValidOrderTotal("0", parse)
  {
  }

  /** Ten digits, and thirteen characters with a leading '+', match; so does
      a '+' in the middle. Five digits, a letter, or free text do not. */
  lemma PhonePatternExamples()
    ensures MatchesPhonePattern("9876543210")
    ensures MatchesPhonePattern("+919876543210")
    ensures MatchesPhonePattern("98765+43210")
    ensures !MatchesPhonePattern("12345")
    ensures !MatchesPhonePattern("abc1234567")
    ensures !MatchesPhonePattern("call me")
  {
    assert !IsPhoneChar("abc1234567"[0]);
    assert !IsPhoneChar("call me"[0]);
  }
}
