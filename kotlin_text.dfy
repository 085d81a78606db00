/**
 * The parts of Kotlin's `String`/`CharSequence` library that the launcher's search
 * uses: `contains(other)`, `contains(other, ignoreCase = true)` and `isBlank()`.
 * Case mapping covers the ASCII letters only.
 */
module KotlinText {

  /** `needle` occurs in `hay` starting at index `k`. */
  ghost predicate OccursAt(hay: string, needle: string, k: int)
  {
    0 <= k && k + |needle| <= |hay| && hay[k..k + |needle|] == needle
  }

  /** `CharSequence.contains(other)`: searches `hay` for an exact copy of `needle`. */
  function Contains(hay: string, needle: string): bool
    decreases |hay|
  {
    needle <= hay || (hay != [] && Contains(hay[1..], needle))
  }

  /** `contains` holds exactly when some index of `hay` starts an exact copy of `needle`. */
  lemma {:induction false} ContainsIsOccurrence(hay: string, needle: string)
    ensures Contains(hay, needle) <==> exists k :: OccursAt(hay, needle, k)
    decreases |hay|
  {
    if needle <= hay {
      assert OccursAt(hay, needle, 0);
    } else if hay != [] {
      ContainsIsOccurrence(hay[1..], needle);
      if Contains(hay[1..], needle) {
        var k :| OccursAt(hay[1..], needle, k);
        assert hay[1..][k..k + |needle|] == hay[k + 1..k + 1 + |needle|];
        assert OccursAt(hay, needle, k + 1);
      } else {
        forall k | OccursAt(hay, needle, k) ensures OccursAt(hay[1..], needle, k - 1) {
          assert hay[..|needle|] != needle;
          assert k != 0;
          assert hay[1..][k - 1..k - 1 + |needle|] == hay[k..k + |needle|];
        }
      }
    }
  }

  /** `Char.uppercaseChar()` on ASCII letters. */
  function UppercaseChar(c: char): char
  {
    if 'a' <= c <= 'z' then (c as int - 32) as char else c
  }

  /** `Char.lowercaseChar()` on ASCII letters. */
  function LowercaseChar(c: char): char
  {
    if 'A' <= c <= 'Z' then (c as int + 32) as char else c
  }

  /** `Char.equals(other, ignoreCase = true)`. */
  predicate CharEqualsIgnoreCase(a: char, b: char)
  {
    a == b
    || UppercaseChar(a) == UppercaseChar(b)
    || LowercaseChar(UppercaseChar(a)) == LowercaseChar(UppercaseChar(b))
  }

  /** Two strings of equal length that agree character by character, ignoring case. */
  ghost predicate EqualIgnoreCase(a: string, b: string)
  {
    |a| == |b| && forall i :: 0 <= i < |a| ==> CharEqualsIgnoreCase(a[i], b[i])
  }

  /** `needle` occurs in `hay` at index `k`, ignoring case. */
  ghost predicate OccursIgnoreCaseAt(hay: string, needle: string, k: int)
  {
    0 <= k && k + |needle| <= |hay| && EqualIgnoreCase(hay[k..k + |needle|], needle)
  }

  /** `hay` starts with `needle`, ignoring case (`regionMatches` at offset 0). */
  function StartsWithIgnoreCase(hay: string, needle: string): (r: bool)
    ensures r <==> |needle| <= |hay| && EqualIgnoreCase(hay[..|needle|], needle)
    decreases |needle|
  {
    if needle == [] then true
    else if hay == [] then false
    else CharEqualsIgnoreCase(hay[0], needle[0]) && StartsWithIgnoreCase(hay[1..], needle[1..])
  }

  /** `CharSequence.contains(other, ignoreCase = true)`. */
  function ContainsIgnoreCase(hay: string, needle: string): bool
    decreases |hay|
  {
    StartsWithIgnoreCase(hay, needle) || (hay != [] && ContainsIgnoreCase(hay[1..], needle))
  }

  /** `contains(ignoreCase = true)` holds exactly when `needle` occurs in `hay` at some index, ignoring case. */
  lemma {:induction false} ContainsIgnoreCaseIsOccurrence(hay: string, needle: string)
    ensures ContainsIgnoreCase(hay, needle) <==> exists k :: OccursIgnoreCaseAt(hay, needle, k)
    decreases |hay|
  {
    if StartsWithIgnoreCase(hay, needle) {
      assert OccursIgnoreCaseAt(hay, needle, 0);
    } else if hay != [] {
      ContainsIgnoreCaseIsOccurrence(hay[1..], needle);
      if ContainsIgnoreCase(hay[1..], needle) {
        var k :| OccursIgnoreCaseAt(hay[1..], needle, k);
        assert hay[1..][k..k + |needle|] == hay[k + 1..k + 1 + |needle|];
        assert OccursIgnoreCaseAt(hay, needle, k + 1);
      } else {
        forall k | OccursIgnoreCaseAt(hay, needle, k) ensures OccursIgnoreCaseAt(hay[1..], needle, k - 1) {
          assert k != 0;
          assert hay[1..][k - 1..k - 1 + |needle|] == hay[k..k + |needle|];
        }
      }
    }
  }

  /** Every text contains the empty string, with or without case. */
  lemma ContainsEmpty(hay: string)
    ensures Contains(hay, "") && ContainsIgnoreCase(hay, "")
  {
  }

  /** Upper-cases every character (`String.uppercase()` on ASCII text). */
  function Uppercase(s: string): (r: string)
    ensures |r| == |s|
    ensures forall i :: 0 <= i < |s| ==> r[i] == UppercaseChar(s[i])
  {
    seq(|s|, i requires 0 <= i < |s| => UppercaseChar(s[i]))
  }

  /** On ASCII case mapping, ignoring case is the same as comparing upper-cased characters. */
  lemma CharEqualsIgnoreCaseIffSameUppercase(a: char, b: char)
    ensures CharEqualsIgnoreCase(a, b) <==> UppercaseChar(a) == UppercaseChar(b)
  {
  }

  /**
   * A case-insensitive search finds `needle` exactly when a case-sensitive search
   * of the upper-cased texts does.
   */
  lemma ContainsIgnoreCaseIsUppercasedContains(hay: string, needle: string)
    ensures ContainsIgnoreCase(hay, needle) <==> Contains(Uppercase(hay), Uppercase(needle))
  {
    var H, N := Uppercase(hay), Uppercase(needle);
    ContainsIgnoreCaseIsOccurrence(hay, needle);
    ContainsIsOccurrence(H, N);
    forall k | 0 <= k && k + |needle| <= |hay|
      ensures OccursIgnoreCaseAt(hay, needle, k) <==> OccursAt(H, N, k)
    {
      forall i | 0 <= i < |needle|
        ensures CharEqualsIgnoreCase(hay[k..k + |needle|][i], needle[i]) <==> H[k..k + |needle|][i] == N[i]
      {
        CharEqualsIgnoreCaseIffSameUppercase(hay[k + i], needle[i]);
      }
      if OccursIgnoreCaseAt(hay, needle, k) {
        assert H[k..k + |needle|] == N;
      }
    }
    if Contains(H, N) {
      var k :| OccursAt(H, N, k);
      assert OccursIgnoreCaseAt(hay, needle, k);
    }
  }

  /** An exact occurrence is also an occurrence ignoring case. */
  lemma ContainsImpliesContainsIgnoreCase(hay: string, needle: string)
    ensures Contains(hay, needle) ==> ContainsIgnoreCase(hay, needle)
  {
    ContainsIsOccurrence(hay, needle);
    ContainsIgnoreCaseIsOccurrence(hay, needle);
    if Contains(hay, needle) {
      var k :| OccursAt(hay, needle, k);
      assert OccursIgnoreCaseAt(hay, needle, k);
    }
  }

  /** `Char.isWhitespace()` on the JVM: Java's `isWhitespace` or `isSpaceChar`. */
  predicate IsWhitespace(c: char)
  {
    c == ' ' || c == '\t' || c == '\n' || c == '\U{000B}' || c == '\U{000C}' || c == '\r'
    || ('\U{001C}' <= c <= '\U{001F}')
    || c == '\U{00A0}' || c == '\U{1680}' || ('\U{2000}' <= c <= '\U{200A}')
    || c == '\U{2028}' || c == '\U{2029}' || c == '\U{202F}' || c == '\U{205F}' || c == '\U{3000}'
  }

  /** `CharSequence.isBlank()`: empty or made only of whitespace. */
  predicate IsBlank(s: string)
  {
    forall i :: 0 <= i < |s| ==> IsWhitespace(s[i])
  }

  /**
   * What `isNotBlank()` tells apart: the empty query and queries of whitespace
   * only are blank, blankness is kept by concatenation, and one character that
   * is not whitespace makes a query non-blank.
   */
  lemma {:induction false} BlankQueries(s: string, t: string)
    ensures IsBlank("") && IsBlank(" ") && !IsBlank("a")
    ensures IsBlank(s) && IsBlank(t) ==> IsBlank(s + t)
    ensures IsBlank(s) <==> forall c :: c in s ==> IsWhitespace(c)
  {
    assert "a"[0] == 'a';
    if IsBlank(s) && IsBlank(t) {
      forall i | 0 <= i < |s + t| ensures IsWhitespace((s + t)[i]) {
        if i < |s| { assert (s + t)[i] == s[i]; } else { assert (s + t)[i] == t[i - |s|]; }
      }
    }
  }
}
