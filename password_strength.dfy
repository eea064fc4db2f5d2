/** Model of the SecureApp password strength checker (`checkPasswordStrength`).
    A password is classified into one of four tiers by counting how many of five
    criteria it meets: length at least 8, and at least one uppercase letter, one
    lowercase letter, one digit and one special character.

    The JavaScript function accepts any value; here the dynamically typed argument
    is a tagged `Input`. A JavaScript string is a sequence of UTF-16 code units, so
    `length` and `charCodeAt` work on code units, and so does this model.
 */
module PasswordStrength {

  /** One UTF-16 code unit, as returned by `charCodeAt`. */
  type CodeUnit = x: int | 0 <= x < 0x1_0000

  /** The argument of the checker: a string, or any value of another type. */
  datatype Input = Str(units: seq<CodeUnit>) | NonString

  /** The four strength tiers, weakest first. */
  datatype Tier = Weak | Medium | Strong | VeryStrong

  /** The four character classes the scan looks for. */
  datatype CharClass = Upper | Lower | Digit | Special

  /** The fixed set of special characters. */
  const SpecialChars: string := "!@#$%^&*()_+-=[]{}|;:,.<>?"

  /** The minimum length that satisfies the length criterion. */
  const MinLength: nat := 8

  /** The literal strings the checker returns. */
  const Labels: set<string> := {"weak", "medium", "strong", "very strong"}

  // ---------------------------------------------------------------------------
  // Character classes
  // ---------------------------------------------------------------------------

  /** `u` is the code of one of the characters of `SpecialChars`. */
  predicate IsSpecial(u: CodeUnit) {
    exists k :: 0 <= k < |SpecialChars| && SpecialChars[k] as int == u
  }

  /** Membership of a code unit in a class, each class on its own. */
  predicate InClass(u: CodeUnit, c: CharClass) {
    match c
    case Upper => 65 <= u <= 90
    case Lower => 97 <= u <= 122
    case Digit => 48 <= u <= 57
    case Special => IsSpecial(u)
  }

  /** The `else if` chain of the scan: the first class that matches, if any. */
  function Classify(u: CodeUnit): Option<CharClass> {
    if 65 <= u <= 90 then Some(Upper)
    else if 97 <= u <= 122 then Some(Lower)
    else if 48 <= u <= 57 then Some(Digit)
    else if IsSpecial(u) then Some(Special)
    else None
  }

  /** No special character has a code in the uppercase, lowercase or digit range. */
  lemma SpecialOutsideRanges(u: CodeUnit)
    requires IsSpecial(u)
    ensures !(65 <= u <= 90) && !(97 <= u <= 122) && !(48 <= u <= 57)
  {
  }

  /** The order of the `else if` chain does not matter: the chain picks class `c`
      exactly when the code unit belongs to `c`, because the classes are disjoint. */
  lemma ClassifyExact(u: CodeUnit, c: CharClass)
    ensures Classify(u) == Some(c) <==> InClass(u, c)
  {
  }

  /** Some code unit of `s` belongs to class `c`. */
  predicate Has(s: seq<CodeUnit>, c: CharClass) {
    exists j :: 0 <= j < |s| && InClass(s[j], c)
  }

  // ---------------------------------------------------------------------------
  // Criteria, count and tier
  // ---------------------------------------------------------------------------

  /** The five criteria, in the order the tally tests them. */
  function Criteria(s: seq<CodeUnit>): seq<bool> {
    [|s| >= MinLength, Has(s, Upper), Has(s, Lower), Has(s, Digit), Has(s, Special)]
  }

  /** The number of `true` values in `bs`. */
  function CountTrue(bs: seq<bool>): nat {
    if bs == [] then 0 else (if bs[0] then 1 else 0) + CountTrue(bs[1..])
  }

  lemma {:induction false} CountTrueBounds(bs: seq<bool>)
    ensures CountTrue(bs) <= |bs|
    ensures CountTrue(bs) == |bs| <==> forall k :: 0 <= k < |bs| ==> bs[k]
    ensures CountTrue(bs) == 0 <==> forall k :: 0 <= k < |bs| ==> !bs[k]
  {
    if bs != [] {
      CountTrueBounds(bs[1..]);
      assert forall k :: 1 <= k < |bs| ==> bs[k] == bs[1..][k - 1];
    }
  }

  /** 1 for `true`, 0 for `false`. */
  function Indicator(b: bool): nat {
    if b then 1 else 0
  }

  /** On a sequence of five criteria, `CountTrue` is the sum of the five indicators. */
  lemma CountTrueOfFive(b0: bool, b1: bool, b2: bool, b3: bool, b4: bool)
    ensures CountTrue([b0, b1, b2, b3, b4])
            == Indicator(b0) + Indicator(b1) + Indicator(b2) + Indicator(b3) + Indicator(b4)
  {
    assert [b4][1..] == [];
    assert CountTrue([b4]) == Indicator(b4);
    assert [b3, b4][1..] == [b4];
    assert CountTrue([b3, b4]) == Indicator(b3) + Indicator(b4);
    assert [b2, b3, b4][1..] == [b3, b4];
    assert CountTrue([b2, b3, b4]) == Indicator(b2) + Indicator(b3) + Indicator(b4);
    assert [b1, b2, b3, b4][1..] == [b2, b3, b4];
    assert [b0, b1, b2, b3, b4][1..] == [b1, b2, b3, b4];
  }

  /** The number of criteria that `s` meets. */
  function CountCriteria(s: seq<CodeUnit>): (r: nat)
    ensures r <= 5
    ensures r == 5 <==> |s| >= MinLength && Has(s, Upper) && Has(s, Lower) && Has(s, Digit) && Has(s, Special)
    ensures r == 0 <==> |s| < MinLength && !Has(s, Upper) && !Has(s, Lower) && !Has(s, Digit) && !Has(s, Special)
  {
    CountTrueOfFive(|s| >= MinLength, Has(s, Upper), Has(s, Lower), Has(s, Digit), Has(s, Special));
    CountTrue(Criteria(s))
  }

  /** The tier table, as the source's chain of early returns. */
  function TierOf(count: nat): Tier {
    if count <= 1 then Weak
    else if count <= 3 then Medium
    else if count == 4 then Strong
    else VeryStrong
  }

  /** The position of a tier in the order weak < medium < strong < very strong. */
  function Rank(t: Tier): nat {
    match t
    case Weak => 0
    case Medium => 1
    case Strong => 2
    case VeryStrong => 3
  }

  /** The literal string for each tier. */
  function Label(t: Tier): (r: string)
    ensures r in Labels
  {
    match t
    case Weak => "weak"
    case Medium => "medium"
    case Strong => "strong"
    case VeryStrong => "very strong"
  }

  /** The strength of any input: the guard, then the tier of the count. */
  function Strength(input: Input): Tier {
    match input
    case NonString => Weak
    case Str(s) => if |s| == 0 then Weak else TierOf(CountCriteria(s))
  }

  // ---------------------------------------------------------------------------
  // The checker
  // ---------------------------------------------------------------------------

  /** The scan loop: one pass over the code units, setting the flag of the first
      class in the chain that matches each unit. */
  method Scan(password: seq<CodeUnit>) returns (uppercase: bool, lowercase: bool, numeric: bool, hasSpecial: bool)
    ensures uppercase == Has(password, Upper)
    ensures lowercase == Has(password, Lower)
    ensures numeric == Has(password, Digit)
    ensures hasSpecial == Has(password, Special)
  {
    uppercase, lowercase, numeric, hasSpecial := false, false, false, false;
    var i := 0;
    while i < |password|
      invariant 0 <= i <= |password|
      invariant uppercase == exists j :: 0 <= j < i && InClass(password[j], Upper)
      invariant lowercase == exists j :: 0 <= j < i && InClass(password[j], Lower)
      invariant numeric == exists j :: 0 <= j < i && InClass(password[j], Digit)
      invariant hasSpecial == exists j :: 0 <= j < i && InClass(password[j], Special)
    {
      var code := password[i];
      if IsSpecial(code) {
        SpecialOutsideRanges(code);
      }
      if 65 <= code <= 90 {
        uppercase := true;
      } else if 97 <= code <= 122 {
        lowercase := true;
      } else if 48 <= code <= 57 {
        numeric := true;
      } else if IsSpecial(code) {
        hasSpecial := true;
      }
      i := i + 1;
    }
  }

  /** `checkPasswordStrength`: returns one of the four labels. */
  method CheckPasswordStrength(password: Input) returns (strength: string)
    ensures strength == Label(Strength(password))
    ensures strength in Labels
    ensures password.NonString? || password.units == [] ==> strength == "weak"
  {
    if password.NonString? || |password.units| == 0 {
      return "weak";
    }
    var s := password.units;
    var count := 0;
    var uppercase, lowercase, numeric, hasSpecial := Scan(s);

    if |s| >= MinLength { count := count + 1; }
    if uppercase { count := count + 1; }
    if lowercase { count := count + 1; }
    if numeric { count := count + 1; }
    if hasSpecial { count := count + 1; }
    assert count == CountCriteria(s) by {
      CountTrueOfFive(|s| >= MinLength, uppercase, lowercase, numeric, hasSpecial);
    }

    if count <= 1 { return "weak"; }
    if count <= 3 { return "medium"; }
    if count == 4 { return "strong"; }
    return "very strong";
  }

  // ---------------------------------------------------------------------------
  // Properties
  // ---------------------------------------------------------------------------

  /** A non-string or an empty string is weak. */
  lemma GuardIsWeak(input: Input)
    requires input.NonString? || input.units == []
    ensures Strength(input) == Weak
  {
  }

  /** The guard on the empty string agrees with the tally: an empty string meets
      no criterion, so it would be weak without the guard too. */
  lemma EmptyMeetsNoCriterion()
    ensures CountCriteria([]) == 0 && TierOf(CountCriteria([])) == Weak
  {
  }

  /** The tier table is exact over the counts 0..5. */
  lemma TierTable(count: nat)
    requires count <= 5
    ensures TierOf(count) == Weak <==> count <= 1
    ensures TierOf(count) == Medium <==> 2 <= count <= 3
    ensures TierOf(count) == Strong <==> count == 4
    ensures TierOf(count) == VeryStrong <==> count == 5
  {
  }

  /** More criteria never give a lower tier. */
  lemma TierMonotone(c1: nat, c2: nat)
    requires c1 <= c2
    ensures Rank(TierOf(c1)) <= Rank(TierOf(c2))
  {
  }

  /** Distinct tiers have distinct labels. */
  lemma LabelInjective(t1: Tier, t2: Tier)
    ensures Label(t1) == Label(t2) <==> t1 == t2
  {
  }

  /** The strength of a string depends only on its length and on which classes
      occur in it. */
  lemma StrengthFromSummary(s: seq<CodeUnit>, t: seq<CodeUnit>)
    requires |s| == |t|
    requires forall c :: Has(s, c) == Has(t, c)
    ensures Strength(Str(s)) == Strength(Str(t))
  {
  }

  /** Whether a class occurs depends only on the multiset of code units. */
  lemma HasFromMultiset(s: seq<CodeUnit>, t: seq<CodeUnit>, c: CharClass)
    requires multiset(s) == multiset(t)
    ensures Has(s, c) == Has(t, c)
  {
    if Has(s, c) {
      var j :| 0 <= j < |s| && InClass(s[j], c);
      assert s[j] in multiset(t);
      var k :| 0 <= k < |t| && t[k] == s[j];
    }
    if Has(t, c) {
      var j :| 0 <= j < |t| && InClass(t[j], c);
      assert t[j] in multiset(s);
      var k :| 0 <= k < |s| && s[k] == t[j];
    }
  }

  /** Permuting the code units of a password does not change its strength. */
  lemma PermutationInvariant(s: seq<CodeUnit>, t: seq<CodeUnit>)
    requires multiset(s) == multiset(t)
    ensures Strength(Str(s)) == Strength(Str(t))
  {
    assert |s| == |multiset(s)| == |multiset(t)| == |t|;
    forall c: CharClass ensures Has(s, c) == Has(t, c) {
      HasFromMultiset(s, t, c);
    }
    StrengthFromSummary(s, t);
  }

  // ---------------------------------------------------------------------------
  // Examples from the criteria list
  // ---------------------------------------------------------------------------

  /** The code units of a string whose characters all lie in the Basic
      Multilingual Plane (one code unit per character). */
  function Units(s: string): (r: seq<CodeUnit>)
    requires forall k :: 0 <= k < |s| ==> s[k] as int < 0x1_0000
    ensures |r| == |s| && forall k :: 0 <= k < |s| ==> r[k] == s[k] as int
  {
    if s == [] then [] else [s[0] as int as CodeUnit] + Units(s[1..])
  }

  /** "Password1!" meets all five criteria. */
  lemma ExampleVeryStrong()
    ensures Strength(Str(Units("Password1!"))) == VeryStrong
  {
    var s := Units("Password1!");
    assert InClass(s[0], Upper) && InClass(s[1], Lower) && InClass(s[8], Digit);
    assert SpecialChars[0] == '!';
    assert InClass(s[9], Special);
    assert CountCriteria(s) == 5;
  }

  /** "Password1" misses only the special character. */
  lemma ExampleStrong()
    ensures Strength(Str(Units("Password1"))) == Strong
  {
    var s := Units("Password1");
    assert InClass(s[0], Upper) && InClass(s[1], Lower) && InClass(s[8], Digit);
    NoSpecialInAlnum(s);
    assert CountCriteria(s) == 4 by {
      CountTrueOfFive(true, true, true, true, false);
    }
  }

  /** "PASSWORD" meets the length and uppercase criteria only. */
  lemma ExampleMedium()
    ensures Strength(Str(Units("PASSWORD"))) == Medium
  {
    var s := Units("PASSWORD");
    assert forall j :: 0 <= j < |s| ==> InClass(s[j], Upper);
    assert InClass(s[0], Upper) && !Has(s, Lower) && !Has(s, Digit);
    NoSpecialInAlnum(s);
    assert CountCriteria(s) == 2 by {
      CountTrueOfFive(true, true, false, false, false);
    }
  }

  /** "short" meets the lowercase criterion only. */
  lemma ExampleWeak()
    ensures Strength(Str(Units("short"))) == Weak
  {
    var s := Units("short");
    assert forall j :: 0 <= j < |s| ==> InClass(s[j], Lower);
    assert InClass(s[0], Lower) && !Has(s, Upper) && !Has(s, Digit);
    NoSpecialInAlnum(s);
    assert CountCriteria(s) == 1 by {
      CountTrueOfFive(false, false, true, false, false);
    }
  }

  /** A string made of letters and digits has no special character. */
  lemma NoSpecialInAlnum(s: seq<CodeUnit>)
    requires forall j :: 0 <= j < |s| ==> InClass(s[j], Upper) || InClass(s[j], Lower) || InClass(s[j], Digit)
    ensures !Has(s, Special)
  {
    forall j | 0 <= j < |s| ensures !InClass(s[j], Special) {
      if IsSpecial(s[j]) {
        SpecialOutsideRanges(s[j]);
      }
    }
  }

  datatype Option<T> = None | Some(value: T)
}
