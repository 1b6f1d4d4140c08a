/**
 * Engine names and strings.
 *
 * An FName or FString is modelled by its characters. The engine compares
 * names, map keys and strings with `==` without regard to case, so equality
 * here goes through `Fold`, which lower-cases ASCII letters; maps keyed by a
 * name store the folded name as key.
 *
 * The engine's None name (NAME_None) prints as "None", and building a name
 * from the text "None", in any case, gives NAME_None again. The model keeps
 * one representative for it, the empty name: `ToName` is the construction of
 * a name from text and `NameText` its printing.
 */
module Names {

  type Name = seq<char>

  function LowerChar(c: char): char {
    if 'A' <= c <= 'Z' then (c as int + 32) as char else c
  }

  /** The case-folded form of a name: the key under which the engine finds it. */
  function Fold(s: Name): (r: Name)
    ensures |r| == |s|
    ensures forall i :: 0 <= i < |s| ==> r[i] == LowerChar(s[i])
  {
    seq(|s|, i requires 0 <= i < |s| => LowerChar(s[i]))
  }

  /** Folding is idempotent: a folded name is its own key. */
  lemma {:induction false} FoldIdempotent(s: Name)
    ensures Fold(Fold(s)) == Fold(s)
  {
    assert forall i :: 0 <= i < |s| ==> LowerChar(LowerChar(s[i])) == LowerChar(s[i]);
  }

  /** FName::IsEqual and FString == (both ignore case). */
  predicate SameName(a: Name, b: Name) {
    Fold(a) == Fold(b)
  }

  /** FMath::Min on integers. */
  function Min(a: int, b: int): int {
    if a <= b then a else b
  }

  /** FName::IsNone. */
  predicate IsNone(n: Name) {
    |n| == 0
  }

  /** FName(*Text): the text "None", in any case, and the empty text give the None name. */
  function ToName(s: seq<char>): (r: Name)
    ensures IsNone(r) <==> IsNone(s) || Fold(s) == "none"
    ensures !IsNone(r) ==> r == s
  {
    if Fold(s) == "none" then "" else s
  }

  /** FName::ToString: the None name prints as "None", any other name as itself. */
  function NameText(n: Name): (r: seq<char>)
    ensures |r| > 0
    ensures IsNone(n) ==> SameName(r, "None")
    ensures !IsNone(n) ==> r == n
  {
    if IsNone(n) then "None" else n
  }

  /**
   * A name as the engine can hold it: the None name, or a text that is not
   * a spelling of "None".
   */
  predicate IsNameValue(n: Name) {
    IsNone(n) || Fold(n) != "none"
  }

  /** Names built from text are name values, and printing one and reading it back gives it. */
  lemma {:induction false} NameTextRoundTrip(s: seq<char>, n: Name)
    requires IsNameValue(n)
    ensures IsNameValue(ToName(s))
    ensures ToName(NameText(n)) == n
  {
    if IsNone(n) {
      assert Fold("None") == "none";
    }
    if !IsNone(ToName(s)) {
      assert Fold(ToName(s)) != "none";
    }
  }

  /** FString::Left: the first `count` characters, clamped to the string. */
  function Left(s: Name, count: int): Name {
    if count <= 0 then [] else if count >= |s| then s else s[..count]
  }

  /** FString::Right: the last `count` characters, clamped to the string. */
  function Right(s: Name, count: int): Name {
    if count <= 0 then [] else if count >= |s| then s else s[|s| - count..]
  }

  lemma {:induction false} FoldOfPrefix(s: Name, n: nat)
    requires n <= |s|
    ensures Fold(s[..n]) == Fold(s)[..n]
  {
    assert forall i :: 0 <= i < n ==> Fold(s[..n])[i] == Fold(s)[i];
  }

  lemma {:induction false} FoldOfConcat(a: Name, b: Name)
    ensures Fold(a + b) == Fold(a) + Fold(b)
  {
    assert forall i :: 0 <= i < |a| ==> (a + b)[i] == a[i];
    assert forall i :: |a| <= i < |a| + |b| ==> (a + b)[i] == b[i - |a|];
  }

  /** Name comparison is an equivalence that agrees on every prefix. */
  lemma {:induction false} SameNamePrefix(a: Name, b: Name, n: nat)
    requires SameName(a, b) && n <= |a|
    ensures |b| == |a| && SameName(a[..n], b[..n])
  {
    assert |Fold(a)| == |Fold(b)|;
    FoldOfPrefix(a, n);
    FoldOfPrefix(b, n);
  }

  // Decimal text of integers (FString::FromInt) and its reading back
  // (FCString::Atoi).

  predicate IsDigit(c: char) { '0' <= c <= '9' }

  function DigitChar(d: nat): char
    requires d < 10
  {
    ('0' as int + d) as char
  }

  function DigitValue(c: char): nat
    requires IsDigit(c)
  {
    c as int - '0' as int
  }

  /** The decimal text of a non-negative number, without leading zeros. */
  function NatToText(n: nat): (r: Name)
    ensures |r| > 0 && forall i :: 0 <= i < |r| ==> IsDigit(r[i])
  {
    if n < 10 then [DigitChar(n)] else NatToText(n / 10) + [DigitChar(n % 10)]
  }

  /** The value of a run of decimal digits, most significant first. */
  function DigitsValue(ds: Name): nat
    requires forall i :: 0 <= i < |ds| ==> IsDigit(ds[i])
  {
    if ds == [] then 0 else DigitsValue(ds[..|ds| - 1]) * 10 + DigitValue(ds[|ds| - 1])
  }

  /** The longest prefix of `s` made of decimal digits. */
  function LeadingDigits(s: Name): (r: Name)
    ensures |r| <= |s| && r == s[..|r|]
    ensures forall i :: 0 <= i < |r| ==> IsDigit(r[i])
    ensures |r| < |s| ==> !IsDigit(s[|r|])
  {
    if s == [] || !IsDigit(s[0]) then [] else [s[0]] + LeadingDigits(s[1..])
  }

  predicate IsSpace(c: char) {
    c == ' ' || c == '\t' || c == '\n' || c == '\r' || c as int == 11 || c as int == 12
  }

  /** The text after its leading white space. */
  function SkipSpaces(s: Name): (r: Name)
    ensures |r| <= |s| && r == s[|s| - |r|..]
    ensures forall i :: 0 <= i < |s| - |r| ==> IsSpace(s[i])
    ensures |r| > 0 ==> !IsSpace(r[0])
  {
    if s != [] && IsSpace(s[0]) then SkipSpaces(s[1..]) else s
  }

  /**
   * FCString::Atoi: skips leading white space, reads an optional sign and
   * then as many decimal digits as follow; text without digits reads as 0.
   */
  function Atoi(s: Name): (n: int)
    ensures var t := SkipSpaces(s);
            !(|t| > 0 && (IsDigit(t[0]) || t[0] == '-' || t[0] == '+')) ==> n == 0
    ensures n < 0 ==> SkipSpaces(s)[0] == '-'
  {
    var t := SkipSpaces(s);
    if |t| > 0 && t[0] == '-' then 0 - DigitsValue(LeadingDigits(t[1..])) as int
    else if |t| > 0 && t[0] == '+' then DigitsValue(LeadingDigits(t[1..]))
    else DigitsValue(LeadingDigits(t))
  }

  lemma {:induction false} DigitsValueOfNatText(n: nat)
    ensures DigitsValue(NatToText(n)) == n
  {
    var r := NatToText(n);
    if n >= 10 {
      DigitsValueOfNatText(n / 10);
      assert r[..|r| - 1] == NatToText(n / 10);
    }
  }

  lemma {:induction false} LeadingDigitsOfDigits(s: Name)
    requires forall i :: 0 <= i < |s| ==> IsDigit(s[i])
    ensures LeadingDigits(s) == s
  {
    if s != [] {
      LeadingDigitsOfDigits(s[1..]);
    }
  }

  /** Atoi of a non-empty run of digits is the value of those digits. */
  lemma {:induction false} AtoiOfDigits(r: Name)
    requires |r| > 0 && forall i :: 0 <= i < |r| ==> IsDigit(r[i])
    ensures Atoi(r) == DigitsValue(r)
  {
    assert IsDigit(r[0]);
    assert SkipSpaces(r) == r;
    LeadingDigitsOfDigits(r);
  }

  /** Reading back the decimal text of a number gives the number. */
  lemma {:induction false} AtoiOfNatText(n: nat)
    ensures Atoi(NatToText(n)) == n
  {
    AtoiOfDigits(NatToText(n));
    DigitsValueOfNatText(n);
  }
}
