/** ASCII string helpers standing in for java.lang.String and Guava's Ascii/CaseFormat. */
module Text {

  function UpperChar(c: char): char
  {
    if 'a' <= c <= 'z' then (c as int - 32) as char else c
  }

  function LowerChar(c: char): char
  {
    if 'A' <= c <= 'Z' then (c as int + 32) as char else c
  }

  /** `s.toUpperCase(Locale.US)`, restricted to ASCII letters. */
  function Upper(s: string): string
  {
    seq(|s|, i requires 0 <= i < |s| => UpperChar(s[i]))
  }

  function Lower(s: string): string
  {
    seq(|s|, i requires 0 <= i < |s| => LowerChar(s[i]))
  }

  /** `a.equalsIgnoreCase(b)`, restricted to ASCII letters. */
  predicate EqualsIgnoreCase(a: string, b: string)
  {
    Upper(a) == Upper(b)
  }

  /** `s.contains(p)`. */
  predicate Contains(s: string, p: string)
    decreases |s|
  {
    |p| <= |s| && (s[..|p|] == p || Contains(s[1..], p))
  }

  /** Decimal rendering of a natural number, as `String.valueOf` prints it. */
  function NatToString(n: nat): (r: string)
    decreases n
  {
    if n < 10 then [DigitChar(n)] else NatToString(n / 10) + [DigitChar(n % 10)]
  }

  function DigitChar(d: nat): (r: char)
    requires d < 10
    ensures '0' <= r <= '9'
  {
    ('0' as int + d) as char
  }

  /**
   * Guava's `CaseFormat.UPPER_UNDERSCORE.to(LOWER_CAMEL or UPPER_CAMEL, s)`: the string is split
   * at '_'; the first word is lower-cased entirely (LOWER_CAMEL) or capitalised (UPPER_CAMEL),
   * every later word is capitalised (first letter upper case, the rest lower case), and the
   * words are concatenated without separator.
   */
  function CamelFrom(s: string, firstWord: bool, atWordStart: bool): string
    decreases |s|
  {
    if s == [] then []
    else if s[0] == '_' then CamelFrom(s[1..], false, true)
    else [if atWordStart && !firstWord then UpperChar(s[0]) else LowerChar(s[0])]
         + CamelFrom(s[1..], firstWord, false)
  }

  function LowerCamel(s: string): string
  {
    CamelFrom(s, true, true)
  }

  function UpperCamel(s: string): string
  {
    CamelFrom(s, false, true)
  }

  /** The letters of `s` with every '_' removed. */
  function WithoutUnderscores(s: string): string
    decreases |s|
  {
    if s == [] then [] else (if s[0] == '_' then [] else [s[0]]) + WithoutUnderscores(s[1..])
  }

  lemma LowerCharOfUpperChar(c: char)
    ensures LowerChar(UpperChar(c)) == LowerChar(c)
  {
  }

  lemma LowerConcat(a: string, b: string)
    ensures Lower(a + b) == Lower(a) + Lower(b)
  {
  }

  /**
   * Camel-casing only moves letters between cases and drops the separators: ignoring case,
   * the result is the input without its underscores.
   */
  lemma {:induction false} CamelIgnoringCase(s: string, firstWord: bool, atWordStart: bool)
    ensures Lower(CamelFrom(s, firstWord, atWordStart)) == Lower(WithoutUnderscores(s))
    decreases |s|
  {
    if s == [] {
    } else if s[0] == '_' {
      CamelIgnoringCase(s[1..], false, true);
      assert WithoutUnderscores(s) == WithoutUnderscores(s[1..]);
    } else {
      CamelIgnoringCase(s[1..], firstWord, false);
      var c := if atWordStart && !firstWord then UpperChar(s[0]) else LowerChar(s[0]);
      LowerCharOfUpperChar(s[0]);
      var rest := CamelFrom(s[1..], firstWord, false);
      LowerConcat([c], rest);
      LowerConcat([s[0]], WithoutUnderscores(s[1..]));
      assert WithoutUnderscores(s) == [s[0]] + WithoutUnderscores(s[1..]);
    }
  }

  /** Camel-cased names never contain the separator. */
  lemma {:induction false} CamelHasNoUnderscore(s: string, firstWord: bool, atWordStart: bool)
    ensures '_' !in CamelFrom(s, firstWord, atWordStart)
    decreases |s|
  {
    if s == [] {
    } else if s[0] == '_' {
      CamelHasNoUnderscore(s[1..], false, true);
    } else {
      CamelHasNoUnderscore(s[1..], firstWord, false);
    }
  }

  /** Decimal rendering is one-to-one: distinct counters print differently. */
  lemma {:induction false} NatToStringInjective(m: nat, n: nat)
    requires m != n
    ensures NatToString(m) != NatToString(n)
    decreases m + n
  {
    if m < 10 && n < 10 {
      assert NatToString(m)[0] != NatToString(n)[0];
    } else if m < 10 || n < 10 {
      NatToStringLength(m);
      NatToStringLength(n);
    } else if m % 10 != n % 10 {
      var sm, sn := NatToString(m), NatToString(n);
      assert sm[|sm| - 1] == DigitChar(m % 10) && sn[|sn| - 1] == DigitChar(n % 10);
    } else {
      NatToStringInjective(m / 10, n / 10);
      var sm, sn := NatToString(m), NatToString(n);
      assert sm[..|sm| - 1] == NatToString(m / 10);
      assert sn[..|sn| - 1] == NatToString(n / 10);
    }
  }

  lemma NatToStringLength(n: nat)
    ensures n < 10 <==> |NatToString(n)| == 1
  {
    if n >= 10 {
      assert |NatToString(n)| == |NatToString(n / 10)| + 1;
    }
  }
}
