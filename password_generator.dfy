/**
 * The password generator page (`usePasswordGenerator`): the generation options, their
 * setters, the generator itself and the strength rating of the current password.
 */
module PasswordGenerator {

  /** `ALL_SPECIAL_CHARS`: the 26 special characters the page offers. */
  const AllSpecialChars: string := "!@#$%^&*()_+-=[]{}|;:,.<>?"

  /** `COMMON_SPECIAL_CHARS`: the "common" preset. */
  const CommonSpecialChars: string := "!@#$%^&*?"

  /** `UPPERCASE_CHARS`, `LOWERCASE_CHARS` and `NUMBER_CHARS`. */
  const UppercaseChars: string := "ABCDEFGHIJKLMNOPQRSTUVWXYZ"
  const LowercaseChars: string := "abcdefghijklmnopqrstuvwxyz"
  const NumberChars: string := "0123456789"

  /** Membership in the generator's uppercase, lowercase and digit pools. */
  predicate IsUpper(c: char) { c in UppercaseChars }
  predicate IsLower(c: char) { c in LowercaseChars }
  predicate IsDigit(c: char) { c in NumberChars }

  /** The uppercase pool is the regular-expression range `[A-Z]`. */
  lemma UpperIsRange(c: char)
    ensures IsUpper(c) <==> 'A' <= c <= 'Z'
  {
  }

  /** The lowercase pool is the regular-expression range `[a-z]`. */
  lemma LowerIsRange(c: char)
    ensures IsLower(c) <==> 'a' <= c <= 'z'
  {
  }

  /** The digit pool is the regular-expression range `[0-9]`. */
  lemma DigitIsRange(c: char)
    ensures IsDigit(c) <==> '0' <= c <= '9'
  {
  }

  /** No character occurs twice: the sequence is a JavaScript `Set` in insertion order. */
  predicate NoDuplicates(s: string) {
    forall i, j :: 0 <= i < j < |s| ==> s[i] != s[j]
  }

  /** The generation options; the selected special characters are kept in insertion order. */
  datatype Options = Options(
    length: int,
    includeUppercase: bool,
    includeLowercase: bool,
    includeNumbers: bool,
    includeSpecialChars: bool,
    selectedSpecialChars: string)

  /** The initial options: 16 characters, every class on, every special character selected. */
  const DefaultOptions: Options := Options(16, true, true, true, true, AllSpecialChars)

  /** `Math.max(4, Math.min(128, length))`. */
  function ClampLength(length: int): (n: int)
    ensures 4 <= n <= 128
    ensures 4 <= length <= 128 ==> n == length
    ensures length < 4 ==> n == 4
    ensures length > 128 ==> n == 128
  {
    if length < 4 then 4 else if length > 128 then 128 else length
  }

  /** `s` without `c`, the others in their order (`Set.prototype.delete`). */
  function Remove(s: string, c: char): (r: string)
    ensures forall x :: x in r <==> x in s && x != c
    ensures |r| <= |s|
  {
    if s == [] then []
    else if s[0] == c then Remove(s[1..], c)
    else [s[0]] + Remove(s[1..], c)
  }

  /** The selection after `toggleSpecialChar(c)`: `c` removed when present, otherwise added last. */
  function Toggled(s: string, c: char): (r: string)
    ensures c in r <==> c !in s
    ensures forall x :: x != c ==> (x in r <==> x in s)
  {
    if c in s then Remove(s, c) else s + [c]
  }

  /** Removing a character keeps a sequence free of duplicates. */
  lemma {:induction false} RemoveKeepsNoDuplicates(s: string, c: char)
    requires NoDuplicates(s)
    ensures NoDuplicates(Remove(s, c))
  {
    if s != [] {
      assert NoDuplicates(s[1..]) by {
        forall i, j | 0 <= i < j < |s[1..]|
          ensures s[1..][i] != s[1..][j]
        {
          assert s[1..][i] == s[i + 1] && s[1..][j] == s[j + 1];
        }
      }
      RemoveKeepsNoDuplicates(s[1..], c);
      if s[0] != c {
        var rest := Remove(s[1..], c);
        assert s[0] !in s[1..] by {
          forall k | 0 <= k < |s[1..]|
            ensures s[1..][k] != s[0]
          {
            assert s[1..][k] == s[k + 1];
          }
        }
        assert s[0] !in rest;
        var r := [s[0]] + rest;
        forall i, j | 0 <= i < j < |r|
          ensures r[i] != r[j]
        {
          if i == 0 {
            assert r[j] == rest[j - 1];
          } else {
            assert r[i] == rest[i - 1] && r[j] == rest[j - 1];
          }
        }
      }
    }
  }

  /** Toggling keeps the selection free of duplicates. */
  lemma ToggledKeepsNoDuplicates(s: string, c: char)
    requires NoDuplicates(s)
    ensures NoDuplicates(Toggled(s, c))
  {
    if c in s {
      RemoveKeepsNoDuplicates(s, c);
    } else {
      var r := s + [c];
      forall i, j | 0 <= i < j < |r|
        ensures r[i] != r[j]
      {
        if j == |s| {
          assert r[i] == s[i];
        } else {
          assert r[i] == s[i] && r[j] == s[j];
        }
      }
    }
  }

  /** Removing a character that does not occur changes nothing. */
  lemma {:induction false} RemoveAbsent(s: string, c: char)
    requires c !in s
    ensures Remove(s, c) == s
  {
    if s != [] {
      assert c !in s[1..] by {
        forall k | 0 <= k < |s[1..]|
          ensures s[1..][k] != c
        {
          assert s[1..][k] == s[k + 1];
        }
      }
      RemoveAbsent(s[1..], c);
      assert [s[0]] + s[1..] == s;
    }
  }

  /** Removing the last character added gives back what was there before it. */
  lemma {:induction false} RemoveLast(s: string, c: char)
    requires c !in s
    ensures Remove(s + [c], c) == s
  {
    if s == [] {
      assert Remove([c][1..], c) == [];
    } else {
      assert (s + [c])[1..] == s[1..] + [c];
      assert c !in s[1..] by {
        forall k | 0 <= k < |s[1..]|
          ensures s[1..][k] != c
        {
          assert s[1..][k] == s[k + 1];
        }
      }
      RemoveLast(s[1..], c);
      assert [s[0]] + s[1..] == s;
    }
  }

  /**
   * Toggling the same character twice selects the same characters; when the character
   * was not selected, the selection comes back unchanged, order included.
   */
  lemma ToggleTwice(s: string, c: char)
    ensures forall x :: x in Toggled(Toggled(s, c), c) <==> x in s
    ensures c !in s ==> Toggled(Toggled(s, c), c) == s
  {
    if c !in s {
      RemoveLast(s, c);
    }
  }

  /**
   * The characters the generator draws from, in the order the source concatenates
   * them: exactly the allowed characters. It is empty exactly when no class can
   * contribute, counting special characters only with a non-empty selection.
   */
  function Charset(o: Options): (cs: string)
    ensures forall c :: c in cs <==> Allowed(o, c)
    ensures cs == [] <==>
      !o.includeUppercase && !o.includeLowercase && !o.includeNumbers &&
      (!o.includeSpecialChars || o.selectedSpecialChars == [])
  {
    Piece(o.includeUppercase, UppercaseChars) + Piece(o.includeLowercase, LowercaseChars)
    + Piece(o.includeNumbers, NumberChars)
    + Piece(o.includeSpecialChars && |o.selectedSpecialChars| > 0, o.selectedSpecialChars)
  }

  /** A class's contribution to the charset: its characters when it is switched on. */
  function Piece(on: bool, pool: string): string {
    if on then pool else []
  }

  /**
   * A character may appear in a password for `o` exactly when its class is switched
   * on. When the selection keeps to the offered special characters, every allowed
   * character is one the strength test recognises.
   */
  predicate Allowed(o: Options, c: char)
    ensures Allowed(o, c) && (forall s :: s in o.selectedSpecialChars ==> s in AllSpecialChars) ==>
      ('A' <= c <= 'Z') || ('a' <= c <= 'z') || ('0' <= c <= '9') || IsSpecial(c)
  {
    UpperIsRange(c);
    LowerIsRange(c);
    DigitIsRange(c);

    || (o.includeUppercase && IsUpper(c))
    || (o.includeLowercase && IsLower(c))
    || (o.includeNumbers && IsDigit(c))
    || (o.includeSpecialChars && c in o.selectedSpecialChars)
  }

  /** `Math.random()` draws: each in [0, 1). */
  predicate DrawsInRange(draws: seq<real>) {
    forall k :: 0 <= k < |draws| ==> 0.0 <= draws[k] < 1.0
  }

  /**
   * `Math.floor(Math.random() * n)` with the `k`-th draw; draws past the end of the
   * sequence count as 0.
   */
  function Pick(draws: seq<real>, k: nat, n: nat): (i: nat)
    requires DrawsInRange(draws) && n > 0
    ensures i < n
  {
    var r := if k < |draws| then draws[k] else 0.0;
    ScaledBelow(r, n);
    Floor(r * n as real)
  }

  /** `Math.floor`. */
  function Floor(x: real): int {
    x.Floor
  }

  lemma ScaledBelow(r: real, n: nat)
    requires 0.0 <= r < 1.0 && n > 0
    ensures 0.0 <= r * n as real < n as real
  {
    assert (1.0 - r) * n as real > 0.0;
  }

  /** `s` with the characters at `i` and `j` exchanged. */
  function Swap(s: seq<char>, i: nat, j: nat): (t: seq<char>)
    requires i < |s| && j < |s|
    ensures |t| == |s| && t[i] == s[j] && t[j] == s[i]
    ensures forall m :: 0 <= m < |s| && m != i && m != j ==> t[m] == s[m]
  {
    s[i := s[j]][j := s[i]]
  }

  /**
   * The Fisher-Yates pass the draws select: for `i` from the given index down to 1,
   * swap position `i` with the position `Math.floor(Math.random() * (i + 1))` drawn
   * by the `k`-th and later draws.
   */
  function FisherYates(s: seq<char>, draws: seq<real>, k: nat, i: int): (t: seq<char>)
    requires DrawsInRange(draws) && i < |s|
    ensures |t| == |s|
    decreases i
  {
    if i <= 0 then s
    else FisherYates(Swap(s, i, Pick(draws, k, i + 1)), draws, k + 1, i - 1)
  }

  /** A swap keeps the characters and their counts. */
  lemma SwapPermutes(s: seq<char>, i: nat, j: nat)
    requires i < |s| && j < |s|
    ensures multiset(Swap(s, i, j)) == multiset(s)
  {
    assert Swap(s, i, j) == s[i := s[j]][j := s[i]];
  }

  /** The Fisher-Yates pass is a permutation: it keeps every character and its count. */
  lemma {:induction false} FisherYatesPermutes(s: seq<char>, draws: seq<real>, k: nat, i: int)
    requires DrawsInRange(draws) && i < |s|
    ensures multiset(FisherYates(s, draws, k, i)) == multiset(s)
    decreases i
  {
    if i > 0 {
      var j := Pick(draws, k, i + 1);
      SwapPermutes(s, i, j);
      FisherYatesPermutes(Swap(s, i, j), draws, k + 1, i - 1);
    }
  }

  /** One step of the pass: a swap at `i`, then the pass from `i - 1` on the next draw. */
  lemma FisherYatesStep(s: seq<char>, draws: seq<real>, k: nat, i: int)
    requires DrawsInRange(draws) && 0 < i < |s|
    ensures FisherYates(s, draws, k, i) == FisherYates(Swap(s, i, Pick(draws, k, i + 1)), draws, k + 1, i - 1)
  {
  }

  /**
   * The in-place Fisher-Yates loop of `generatePassword`: the array ends as the pass
   * the draws from `start` on select, a permutation of its old contents.
   */
  method Shuffle(a: array<char>, draws: seq<real>, start: nat)
    requires DrawsInRange(draws)
    modifies a
    ensures a[..] == FisherYates(old(a[..]), draws, start, a.Length - 1)
    ensures multiset(a[..]) == multiset(old(a[..]))
  {
    ghost var target := FisherYates(a[..], draws, start, a.Length - 1);
    var i := a.Length - 1;
    var k := start;
    while i > 0
      invariant -1 <= i < a.Length
      invariant FisherYates(a[..], draws, k, i) == target
    {
      var j := Pick(draws, k, i + 1);
      ghost var before := a[..];
      a[i], a[j] := a[j], a[i];
      assert a[..] == Swap(before, i, j);
      FisherYatesStep(before, draws, k, i);
      k := k + 1;
      i := i - 1;
    }
    FisherYatesPermutes(old(a[..]), draws, start, a.Length - 1);
  }

  /** The strength ratings `getPasswordStrength` returns. */
  datatype Strength = Weak | Medium | Strong | VeryStrong

  /** The class `[!@#$%^&*()_+\-=\[\]{}|;:,.<>?]` of the strength test, character by character. */
  predicate IsSpecial(c: char) {
    || c == '!' || c == '@' || c == '#' || c == '$' || c == '%' || c == '^' || c == '&'
    || c == '*' || c == '(' || c == ')' || c == '_' || c == '+' || c == '-' || c == '='
    || c == '[' || c == ']' || c == '{' || c == '}' || c == '|' || c == ';' || c == ':'
    || c == ',' || c == '.' || c == '<' || c == '>' || c == '?'
  }

  /** The special-character class holds exactly the 26 offered special characters. */
  lemma SpecialIsClass(c: char)
    ensures c in AllSpecialChars <==> IsSpecial(c)
  {
  }

  /**
   * Some character of `p` is in `pool` (the `RegExp.prototype.test` of a character
   * class): never for the empty text or the empty class.
   */
  predicate Covers(p: string, pool: string)
    ensures p == [] || pool == [] ==> !Covers(p, pool)
  {
    exists i :: 0 <= i < |p| && p[i] in pool
  }

  /** `/[A-Z]/.test(p)`. */
  predicate HasUpper(p: string)
    ensures HasUpper(p) <==> exists i :: 0 <= i < |p| && 'A' <= p[i] <= 'Z'
  {
    forall c ensures IsUpper(c) <==> 'A' <= c <= 'Z' { UpperIsRange(c); }
    Covers(p, UppercaseChars)
  }

  /** `/[a-z]/.test(p)`. */
  predicate HasLower(p: string)
    ensures HasLower(p) <==> exists i :: 0 <= i < |p| && 'a' <= p[i] <= 'z'
  {
    forall c ensures IsLower(c) <==> 'a' <= c <= 'z' { LowerIsRange(c); }
    Covers(p, LowercaseChars)
  }

  /** `/[0-9]/.test(p)`. */
  predicate HasDigit(p: string)
    ensures HasDigit(p) <==> exists i :: 0 <= i < |p| && '0' <= p[i] <= '9'
  {
    forall c ensures IsDigit(c) <==> '0' <= c <= '9' { DigitIsRange(c); }
    Covers(p, NumberChars)
  }

  /** The special-character test of `getPasswordStrength`. */
  predicate HasSpecial(p: string)
    ensures HasSpecial(p) <==> exists i :: 0 <= i < |p| && IsSpecial(p[i])
  {
    forall c ensures c in AllSpecialChars <==> IsSpecial(c) { SpecialIsClass(c); }
    Covers(p, AllSpecialChars)
  }

  function Point(b: bool): nat { if b then 1 else 0 }

  /** One point per length threshold 8, 12, 16 and 24 met, one per character class present. */
  function Score(p: string): (score: nat)
    ensures score <= 8
    ensures score == 8 <==> |p| >= 24 && HasUpper(p) && HasLower(p) && HasDigit(p) && HasSpecial(p)
  {
    Point(|p| >= 8) + Point(|p| >= 12) + Point(|p| >= 16) + Point(|p| >= 24)
    + Point(HasUpper(p)) + Point(HasLower(p)) + Point(HasDigit(p)) + Point(HasSpecial(p))
  }

  /**
   * `getPasswordStrength`: weak for the empty password and for scores up to 3, medium
   * up to 5, strong up to 7, very strong at 8.
   */
  function PasswordStrength(p: string): (s: Strength)
    ensures p == [] ==> s == Weak
    ensures s == VeryStrong <==> |p| >= 24 && HasUpper(p) && HasLower(p) && HasDigit(p) && HasSpecial(p)
    ensures |p| < 8 ==> s == Weak || s == Medium
  {
    if p == [] then Weak
    else
      var score := Score(p);
      if score <= 3 then Weak else if score <= 5 then Medium else if score <= 7 then Strong else VeryStrong
  }

  /** The order of the ratings. */
  function Rank(s: Strength): nat {
    match s
    case Weak => 0
    case Medium => 1
    case Strong => 2
    case VeryStrong => 3
  }

  /** A class present in a password stays present when characters are added after it. */
  lemma ExtendingKeepsCover(p: string, q: string)
    ensures forall pool :: Covers(p, pool) ==> Covers(p + q, pool)
  {
    forall pool | Covers(p, pool)
      ensures Covers(p + q, pool)
    {
      var i :| 0 <= i < |p| && p[i] in pool;
      assert (p + q)[i] == p[i];
    }
  }

  /** Appending one character keeps every class present and adds the character's own. */
  lemma AppendCovers(p: string, c: char)
    ensures forall pool :: Covers(p, pool) || c in pool ==> Covers(p + [c], pool)
  {
    ExtendingKeepsCover(p, [c]);
    assert (p + [c])[|p|] == c;
  }

  /** Adding characters to a password never lowers its rating. */
  lemma LongerIsNoWeaker(p: string, q: string)
    ensures Rank(PasswordStrength(p)) <= Rank(PasswordStrength(p + q))
  {
    ScoreNoLower(p, q);
  }

  /** Adding characters never lowers the score: lengths only grow and classes stay present. */
  lemma ScoreNoLower(p: string, q: string)
    ensures Score(p) <= Score(p + q)
  {
    ExtendingKeepsCover(p, q);
  }

  /** A password of 16 to 23 characters with every class present rates strong, one of 24 or more very strong. */
  lemma AllClassesRating(p: string)
    requires HasUpper(p) && HasLower(p) && HasDigit(p) && HasSpecial(p)
    ensures 16 <= |p| < 24 ==> PasswordStrength(p) == Strong
    ensures |p| >= 24 ==> PasswordStrength(p) == VeryStrong
  {
  }

  /** The selected special characters of the initial options are all the offered ones, each once. */
  lemma AllSpecialCharsDistinct()
    ensures |AllSpecialChars| == 26 && NoDuplicates(AllSpecialChars)
  {
  }

  /**
   * The initial options draw from all 88 characters: the three letter and digit pools
   * followed by every offered special character.
   */
  lemma DefaultCharset()
    ensures Charset(DefaultOptions) == UppercaseChars + LowercaseChars + NumberChars + AllSpecialChars
    ensures |Charset(DefaultOptions)| == 88
  {
  }

  /** The common preset is nine distinct characters, every one of them among the offered ones. */
  lemma CommonIsSubsetOfAll()
    ensures |CommonSpecialChars| == 9 && NoDuplicates(CommonSpecialChars)
    ensures forall c :: c in CommonSpecialChars ==> c in AllSpecialChars
  {
  }

  class PasswordGeneratorState {
    var password: string
    var options: Options

    /** The length stays within 4..128 and the selection is a set. */
    ghost predicate Valid()
      reads this
    {
      4 <= options.length <= 128 && NoDuplicates(options.selectedSpecialChars)
    }

    /** No password yet; the default options. */
    constructor ()
      ensures password == [] && options == DefaultOptions
      ensures Valid()
    {
      password := [];
      options := DefaultOptions;
      AllSpecialCharsDistinct();
    }

    /** `setLength`: the clamped length; nothing else changes. */
    method SetLength(length: int)
      requires Valid()
      modifies this`options
      ensures options == old(options).(length := ClampLength(length))
      ensures Valid()
    {
      options := options.(length := ClampLength(length));
    }

    method SetIncludeUppercase(enabled: bool)
      requires Valid()
      modifies this`options
      ensures options == old(options).(includeUppercase := enabled)
      ensures Valid()
    {
      options := options.(includeUppercase := enabled);
    }

    method SetIncludeLowercase(enabled: bool)
      requires Valid()
      modifies this`options
      ensures options == old(options).(includeLowercase := enabled)
      ensures Valid()
    {
      options := options.(includeLowercase := enabled);
    }

    method SetIncludeNumbers(enabled: bool)
      requires Valid()
      modifies this`options
      ensures options == old(options).(includeNumbers := enabled)
      ensures Valid()
    {
      options := options.(includeNumbers := enabled);
    }

    method SetIncludeSpecialChars(enabled: bool)
      requires Valid()
      modifies this`options
      ensures options == old(options).(includeSpecialChars := enabled)
      ensures Valid()
    {
      options := options.(includeSpecialChars := enabled);
    }

    /** `toggleSpecialChar`: `c` leaves the selection when it is in it and joins it otherwise. */
    method ToggleSpecialChar(c: char)
      requires Valid()
      modifies this`options
      ensures options == old(options).(selectedSpecialChars := Toggled(old(options.selectedSpecialChars), c))
      ensures c in options.selectedSpecialChars <==> c !in old(options.selectedSpecialChars)
      ensures Valid()
    {
      ToggledKeepsNoDuplicates(options.selectedSpecialChars, c);
      options := options.(selectedSpecialChars := Toggled(options.selectedSpecialChars, c));
    }

    /** `selectAllSpecialChars`. */
    method SelectAllSpecialChars()
      requires Valid()
      modifies this`options
      ensures options == old(options).(selectedSpecialChars := AllSpecialChars)
      ensures Valid()
    {
      AllSpecialCharsDistinct();
      options := options.(selectedSpecialChars := AllSpecialChars);
    }

    /** `selectNoSpecialChars`. */
    method SelectNoSpecialChars()
      requires Valid()
      modifies this`options
      ensures options == old(options).(selectedSpecialChars := [])
      ensures Valid()
    {
      options := options.(selectedSpecialChars := []);
    }

    /** `selectCommonSpecialChars`. */
    method SelectCommonSpecialChars()
      requires Valid()
      modifies this`options
      ensures options == old(options).(selectedSpecialChars := CommonSpecialChars)
      ensures Valid()
    {
      CommonIsSubsetOfAll();
      options := options.(selectedSpecialChars := CommonSpecialChars);
    }

    /** `generatePassword`: the password becomes `Generate(options, draws)`; the options stay. */
    method GeneratePassword(draws: seq<real>)
      requires Valid() && DrawsInRange(draws)
      modifies this`password
      ensures Charset(options) == [] ==> password == []
      ensures Charset(options) != [] ==> |password| == options.length
      ensures forall i :: 0 <= i < |password| ==> password[i] in Charset(options)
      ensures options.includeUppercase ==> HasUpper(password)
      ensures options.includeLowercase ==> HasLower(password)
      ensures options.includeNumbers ==> HasDigit(password)
      ensures options.includeSpecialChars && options.selectedSpecialChars != [] ==>
        Covers(password, options.selectedSpecialChars)
    {
      password := Generate(options, draws);
    }
  }

  /**
   * The body of `generatePassword` with the `Math.random` results given as `draws`. With
   * nothing to draw from the password is empty. Otherwise it has the chosen length
   * (at least 4, so every required character fits), every character comes from the
   * charset (so it is of an enabled class, by the contract of `Charset`), and every enabled
   * class is represented.
   */
  method Generate(o: Options, draws: seq<real>) returns (password: string)
    requires 4 <= o.length && DrawsInRange(draws)
    ensures Charset(o) == [] ==> password == []
    ensures Charset(o) != [] ==> |password| == o.length
    ensures forall i :: 0 <= i < |password| ==> password[i] in Charset(o)
    ensures o.includeUppercase ==> HasUpper(password)
    ensures o.includeLowercase ==> HasLower(password)
    ensures o.includeNumbers ==> HasDigit(password)
    ensures o.includeSpecialChars && o.selectedSpecialChars != [] ==> Covers(password, o.selectedSpecialChars)
  {
    var charset, required, k := RequiredChars(o, draws);
    if charset == [] {
      return [];
    }
    var remaining := if o.length - |required| > 0 then o.length - |required| else 0;
    var randomChars, next := RandomChars(charset, draws, k, remaining);
    var all := required + randomChars;
    var allChars := new char[|all|](i requires 0 <= i < |all| => all[i]);
    assert allChars[..] == all;
    Shuffle(allChars, draws, next);
    password := allChars[..];
    AllFromCharset(password, all, charset);
    ShuffleKeepsClasses(password, all, required);
  }

  /**
   * The first part of `generatePassword`: the charset, built class by class, and one
   * drawn character of each class that contributes, with the number of draws used.
   */
  method RequiredChars(o: Options, draws: seq<real>) returns (charset: string, required: string, k: nat)
    requires DrawsInRange(draws)
    ensures charset == Charset(o)
    ensures |required| <= 4 && k == |required|
    ensures forall m :: 0 <= m < |required| ==> required[m] in charset
    ensures o.includeUppercase ==> HasUpper(required)
    ensures o.includeLowercase ==> HasLower(required)
    ensures o.includeNumbers ==> HasDigit(required)
    ensures o.includeSpecialChars && o.selectedSpecialChars != [] ==> Covers(required, o.selectedSpecialChars)
  {
    charset, required, k := [], [], 0;
    if o.includeUppercase {
      charset, required, k := AddClass(charset, required, k, UppercaseChars, draws);
    }
    ghost var upper := Piece(o.includeUppercase, UppercaseChars);
    assert charset == upper;
    if o.includeLowercase {
      charset, required, k := AddClass(charset, required, k, LowercaseChars, draws);
    }
    ghost var lower := Piece(o.includeLowercase, LowercaseChars);
    assert charset == upper + lower;
    if o.includeNumbers {
      charset, required, k := AddClass(charset, required, k, NumberChars, draws);
    }
    ghost var digits := Piece(o.includeNumbers, NumberChars);
    assert charset == upper + lower + digits;
    var special := o.selectedSpecialChars;
    if o.includeSpecialChars && |special| > 0 {
      charset, required, k := AddClass(charset, required, k, special, draws);
    }
  }

  /**
   * One class's step of `generatePassword`: its characters join the charset and one
   * of them, picked with the next draw, joins the required characters.
   */
  method AddClass(charset: string, required: string, k: nat, pool: string, draws: seq<real>)
    returns (charset': string, required': string, k': nat)
    requires DrawsInRange(draws) && pool != []
    requires forall m :: 0 <= m < |required| ==> required[m] in charset
    ensures charset' == charset + pool && k' == k + 1
    ensures |required'| == |required| + 1 && required'[..|required|] == required
    ensures forall m :: 0 <= m < |required'| ==> required'[m] in charset'
    ensures Covers(required', pool)
    ensures forall other :: Covers(required, other) ==> Covers(required', other)
  {
    var c := pool[Pick(draws, k, |pool|)];
    AppendCovers(required, c);
    charset', required', k' := charset + pool, required + [c], k + 1;
    forall m | 0 <= m < |required'|
      ensures required'[m] in charset'
    {
      if m < |required| {
        assert required'[m] == required[m];
      }
    }
  }

  /** The fill loop of `generatePassword`: `count` characters drawn from `charset`. */
  method RandomChars(charset: string, draws: seq<real>, start: nat, count: nat) returns (chars: string, next: nat)
    requires DrawsInRange(draws) && charset != []
    ensures |chars| == count && next == start + count
    ensures forall m :: 0 <= m < count ==> chars[m] == charset[Pick(draws, start + m, |charset|)]
    ensures forall m :: 0 <= m < count ==> chars[m] in charset
  {
    chars, next := [], start;
    for i := 0 to count
      invariant |chars| == i && next == start + i
      invariant forall m :: 0 <= m < i ==> chars[m] == charset[Pick(draws, start + m, |charset|)]
      invariant forall m :: 0 <= m < i ==> chars[m] in charset
    {
      chars := chars + [charset[Pick(draws, next, |charset|)]];
      next := next + 1;
    }
  }

  /** A rearrangement of characters taken from the charset is still made of charset characters. */
  lemma AllFromCharset(password: string, all: string, charset: string)
    requires multiset(password) == multiset(all)
    requires forall m :: 0 <= m < |all| ==> all[m] in charset
    ensures forall i :: 0 <= i < |password| ==> password[i] in charset
  {
    forall i | 0 <= i < |password|
      ensures password[i] in charset
    {
      assert password[i] in multiset(all);
    }
  }

  /** A rearrangement of the required characters followed by others keeps every class the required ones had. */
  lemma ShuffleKeepsClasses(password: string, all: string, required: string)
    requires multiset(password) == multiset(all)
    requires |required| <= |all| && all[..|required|] == required
    ensures forall pool :: Covers(required, pool) ==> Covers(password, pool)
  {
    forall pool | Covers(required, pool)
      ensures Covers(password, pool)
    {
      var m :| 0 <= m < |required| && required[m] in pool;
      assert all[m] == required[m];
      assert required[m] in multiset(password);
      var i :| 0 <= i < |password| && password[i] == required[m];
    }
  }
}
