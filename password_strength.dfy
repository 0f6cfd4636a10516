/** The five-point password score the login and reset pages both compute: one point each for
    a length (`length`, in UTF-16 code units) above five, above eight, an ASCII capital, a
    digit and a character that is neither. */
module PasswordStrength {
  import opened Strings

  /** One point for a criterion that holds. */
  function Point(b: bool): nat
  {
    if b then 1 else 0
  }

  /** The number of criteria the password meets. */
  function Score(p: string): (n: nat)
    ensures n <= 5
  {
    Point(Utf16Length(p) > 5) + Point(Utf16Length(p) > 8) + Point(HasUpper(p)) + Point(HasDigit(p)) + Point(HasSymbol(p))
  }

  /** A short password scores at most the three character-class points, and the empty password
      scores nothing. */
  lemma ShortScore(p: string)
    ensures Utf16Length(p) <= 5 ==> Score(p) <= 3
    ensures p == "" ==> Score(p) == 0
  {
  }

  /** A password scores full marks exactly when it is longer than eight characters and has a
      capital, a digit and a symbol. */
  lemma FullScore(p: string)
    ensures Score(p) == 5 <==> Utf16Length(p) > 8 && HasUpper(p) && HasDigit(p) && HasSymbol(p)
  {
  }
}
