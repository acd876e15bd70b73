/**
 * The password generator (src/components/PasswordGenerator.tsx): four
 * character classes that can be switched on and off, a length slider, and
 * `generatePassword`, which assembles the character set and draws `length`
 * characters from it. `Math.random()` is the sequence `draws` of numbers in
 * [0, 1), one per character.
 */
module PasswordGenerator {

  const Uppercase := "ABCDEFGHIJKLMNOPQRSTUVWXYZ"
  const Lowercase := "abcdefghijklmnopqrstuvwxyz"
  const Numbers := "0123456789"
  const Symbols := "!@#$%^&*()_+-=[]{}|;:,.<>?"

  const DefaultLength := 16
  const MinLength := 8
  const MaxLength := 32

  datatype CharClass = Upper | Lower | Number | Symbol

  /** The character set: the enabled classes only, in the order upper, lower, digits, symbols. */
  function CharSet(upper: bool, lower: bool, numbers: bool, symbols: bool): string {
    (if upper then Uppercase else "") + (if lower then Lowercase else "")
    + (if numbers then Numbers else "") + (if symbols then Symbols else "")
  }

  /** `Math.floor(r * n)` for `r` in [0, 1): an index into a string of length `n`. */
  function Pick(r: real, n: nat): (i: nat)
    requires 0.0 <= r < 1.0 && n > 0
    ensures i < n
  {
    var x := r * n as real;
    assert 0.0 <= x < n as real;
    x.Floor
  }

  /** A character is in the set exactly when it belongs to an enabled class. */
  lemma CharSetMembership(upper: bool, lower: bool, numbers: bool, symbols: bool, c: char)
    ensures c in CharSet(upper, lower, numbers, symbols) <==>
      (upper && c in Uppercase) || (lower && c in Lowercase)
      || (numbers && c in Numbers) || (symbols && c in Symbols)
  {
  }

  /** The set is empty exactly when every class is switched off, and its size is the sum of the enabled classes' sizes. */
  lemma CharSetSize(upper: bool, lower: bool, numbers: bool, symbols: bool)
    ensures |CharSet(upper, lower, numbers, symbols)| ==
      (if upper then 26 else 0) + (if lower then 26 else 0) + (if numbers then 10 else 0) + (if symbols then 26 else 0)
    ensures CharSet(upper, lower, numbers, symbols) == [] <==> !upper && !lower && !numbers && !symbols
  {
  }

  /** The `chars +=` steps of `generatePassword`, one per enabled class. */
  method AssembleCharSet(upper: bool, lower: bool, numbers: bool, symbols: bool) returns (chars: string)
    ensures chars == CharSet(upper, lower, numbers, symbols)
  {
    chars := "";
    if upper { chars := chars + Uppercase; }
    assert chars == (if upper then Uppercase else "");
    ghost var a := chars;
    if lower { chars := chars + Lowercase; }
    assert chars == a + (if lower then Lowercase else "");
    ghost var b := chars;
    if numbers { chars := chars + Numbers; }
    assert chars == b + (if numbers then Numbers else "");
    ghost var c := chars;
    if symbols { chars := chars + Symbols; }
    assert chars == c + (if symbols then Symbols else "");
  }

  /** The generation loop: `length` characters, the k-th picked from `chars` by the k-th draw. */
  method Draw(chars: string, length: nat, draws: seq<real>) returns (generated: string)
    requires chars != []
    requires |draws| >= length
    requires forall k :: 0 <= k < |draws| ==> 0.0 <= draws[k] < 1.0
    ensures |generated| == length
    ensures forall k :: 0 <= k < length ==> generated[k] == chars[Pick(draws[k], |chars|)]
    ensures forall k :: 0 <= k < length ==> generated[k] in chars
  {
    generated := "";
    for i := 0 to length
      invariant |generated| == i
      invariant forall k :: 0 <= k < i ==> generated[k] == chars[Pick(draws[k], |chars|)]
    {
      generated := generated + [chars[Pick(draws[i], |chars|)]];
    }
  }

  class PasswordGenerator {
    var password: string
    var length: int
    var useUppercase: bool
    var useLowercase: bool
    var useNumbers: bool
    var useSymbols: bool

    /** The slider keeps the length within 8..32. */
    predicate Valid()
      reads this
    {
      MinLength <= length <= MaxLength
    }

    /** No password yet, length 16, every class on. */
    constructor()
      ensures Valid()
      ensures password == "" && length == DefaultLength
      ensures useUppercase && useLowercase && useNumbers && useSymbols
    {
      password := "";
      length := DefaultLength;
      useUppercase := true;
      useLowercase := true;
      useNumbers := true;
      useSymbols := true;
    }

    function CurrentCharSet(): string
      reads this
    {
      CharSet(useUppercase, useLowercase, useNumbers, useSymbols)
    }

    /** The length slider, whose range input only yields 8..32. */
    method SetLength(value: int)
      requires MinLength <= value <= MaxLength
      modifies this
      ensures Valid() && length == value
      ensures password == old(password) && CurrentCharSet() == old(CurrentCharSet())
    {
      length := value;
    }

    /** One of the four class check boxes. */
    method SetClass(cls: CharClass, on: bool)
      modifies this
      ensures useUppercase == (if cls == Upper then on else old(useUppercase))
      ensures useLowercase == (if cls == Lower then on else old(useLowercase))
      ensures useNumbers == (if cls == Number then on else old(useNumbers))
      ensures useSymbols == (if cls == Symbol then on else old(useSymbols))
      ensures password == old(password) && length == old(length)
    {
      match cls
      case Upper => useUppercase := on;
      case Lower => useLowercase := on;
      case Number => useNumbers := on;
      case Symbol => useSymbols := on;
    }

    /**
     * `generatePassword`: with every class off the password stays as it was;
     * otherwise it becomes exactly `length` characters, the k-th picked from
     * the character set by the k-th draw.
     */
    method GeneratePassword(draws: seq<real>)
      requires Valid()
      requires |draws| >= length
      requires forall k :: 0 <= k < |draws| ==> 0.0 <= draws[k] < 1.0
      modifies this
      ensures CurrentCharSet() == old(CurrentCharSet()) && length == old(length) && Valid()
      ensures CurrentCharSet() == [] ==> password == old(password)
      ensures CurrentCharSet() != [] ==>
        |password| == length
        && forall k :: 0 <= k < length ==> password[k] == CurrentCharSet()[Pick(draws[k], |CurrentCharSet()|)]
      ensures CurrentCharSet() != [] ==> forall k :: 0 <= k < |password| ==> password[k] in CurrentCharSet()
    {
      var chars := AssembleCharSet(useUppercase, useLowercase, useNumbers, useSymbols);
      if chars == "" {
        return;
      }
      password := Draw(chars, length, draws);
    }
  }
}
