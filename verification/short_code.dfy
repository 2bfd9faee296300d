/**
 * The short-code generator (generateShortCode in server.js): a code is built by
 * appending six characters, one per loop step, each taken from a fixed alphabet
 * of 62 symbols at a randomly drawn position. The random position is an input
 * here: a `Draw` is one value of `Math.floor(Math.random() * 62)`.
 */
module ShortCode {

  /** The alphabet of server.js, written as its three consecutive runs. */
  const Lower: string := "abcdefghijklmnopqrstuvwxyz"
  const Upper: string := "ABCDEFGHIJKLMNOPQRSTUVWXYZ"
  const Digits: string := "0123456789"
  const Characters: string := Lower + Upper + Digits

  /** Number of loop steps, hence of characters, in one code. */
  const CodeLength: nat := 6

  /** One random position in the alphabet. */
  type Draw = i: int | 0 <= i < 62

  /** The six positions one call of the generator draws, in order. */
  type Draws = d: seq<Draw> | |d| == 6 witness [0, 0, 0, 0, 0, 0]

  /** The character class [a-zA-Z0-9], independently of `Characters`. */
  predicate IsAlphanumeric(c: char) {
    'a' <= c <= 'z' || 'A' <= c <= 'Z' || '0' <= c <= '9'
  }

  /** A well-formed short code: six characters of [a-zA-Z0-9]. */
  predicate IsShortCode(s: string) {
    |s| == CodeLength && forall i :: 0 <= i < |s| ==> IsAlphanumeric(s[i])
  }

  /** The position of `c` in `Characters`, or -1 for a character outside it. */
  function IndexOf(c: char): int {
    if 'a' <= c <= 'z' then c as int - 'a' as int
    else if 'A' <= c <= 'Z' then 26 + (c as int - 'A' as int)
    else if '0' <= c <= '9' then 52 + (c as int - '0' as int)
    else -1
  }

  /** JavaScript's String.prototype.charAt: the character at `i`, or "" outside `s`. */
  function CharAt(s: string, i: int): string {
    if 0 <= i < |s| then [s[i]] else ""
  }

  /** The string the generator's loop has built after consuming `draws`. */
  function Code(draws: seq<int>): string {
    if draws == [] then ""
    else Code(draws[..|draws| - 1]) + CharAt(Characters, draws[|draws| - 1])
  }

  lemma RunsAreConsecutive()
    ensures |Lower| == 26 && |Upper| == 26 && |Digits| == 10
    ensures forall i :: 0 <= i < |Lower| ==> Lower[i] as int == 'a' as int + i
    ensures forall i :: 0 <= i < |Upper| ==> Upper[i] as int == 'A' as int + i
    ensures forall i :: 0 <= i < |Digits| ==> Digits[i] as int == '0' as int + i
  {
  }

  /** `Characters` is exactly [a-zA-Z0-9], each symbol once, and `IndexOf` inverts it. */
  lemma CharactersAreAlphanumeric()
    ensures |Characters| == 62
    ensures forall i :: 0 <= i < 62 ==> IsAlphanumeric(Characters[i]) && IndexOf(Characters[i]) == i
    ensures forall c :: IsAlphanumeric(c) ==> 0 <= IndexOf(c) < 62 && Characters[IndexOf(c)] == c
  {
    RunsAreConsecutive();
    forall i | 0 <= i < 62
      ensures IsAlphanumeric(Characters[i]) && IndexOf(Characters[i]) == i
    {
      if i < 26 {
        assert Characters[i] == Lower[i];
      } else if i < 52 {
        assert Characters[i] == Upper[i - 26];
      } else {
        assert Characters[i] == Digits[i - 52];
      }
    }
    forall c | IsAlphanumeric(c)
      ensures 0 <= IndexOf(c) < 62 && Characters[IndexOf(c)] == c
    {
      var k := IndexOf(c);
      if 'a' <= c <= 'z' {
        assert Characters[k] == Lower[k];
      } else if 'A' <= c <= 'Z' {
        assert Characters[k] == Upper[k - 26];
      } else {
        assert Characters[k] == Digits[k - 52];
      }
    }
  }

  /** With every draw inside the alphabet, each draw contributes exactly its character. */
  lemma {:induction false} CodeAt(draws: seq<int>)
    requires forall i :: 0 <= i < |draws| ==> 0 <= draws[i] < 62
    ensures |Code(draws)| == |draws|
    ensures forall k :: 0 <= k < |draws| ==> Code(draws)[k] == Characters[draws[k]]
  {
    CharactersAreAlphanumeric();
    if draws != [] {
      CodeAt(draws[..|draws| - 1]);
    }
  }

  /** A code is never longer than the number of draws. */
  lemma {:induction false} CodeLengthBound(draws: seq<int>)
    ensures |Code(draws)| <= |draws|
  {
    if draws != [] {
      CodeLengthBound(draws[..|draws| - 1]);
    }
  }

  /** charAt yields "" for a position outside the alphabet, so such a draw loses a character. */
  lemma {:induction false} OutOfRangeDrawShortensCode(draws: seq<int>, k: nat)
    requires k < |draws| && !(0 <= draws[k] < 62)
    ensures |Code(draws)| < |draws|
  {
    CharactersAreAlphanumeric();
    var init := draws[..|draws| - 1];
    if k == |draws| - 1 {
      CodeLengthBound(init);
    } else {
      assert init[k] == draws[k];
      OutOfRangeDrawShortensCode(init, k);
    }
  }

  /** Every generated code is six characters of [a-zA-Z0-9]. */
  lemma GeneratedIsShortCode(draws: Draws)
    ensures IsShortCode(Code(draws))
    ensures forall k :: 0 <= k < CodeLength ==> Code(draws)[k] == Characters[draws[k]]
  {
    CodeAt(draws);
    CharactersAreAlphanumeric();
  }

  /** The draws that produce a given code. */
  function DrawsOf(s: string): seq<int> {
    seq(|s|, i requires 0 <= i < |s| => IndexOf(s[i]))
  }

  /** Every well-formed short code can be generated: `DrawsOf` inverts `Code`. */
  lemma EveryShortCodeIsGenerated(s: string)
    requires IsShortCode(s)
    ensures |DrawsOf(s)| == CodeLength
    ensures forall k :: 0 <= k < |DrawsOf(s)| ==> 0 <= DrawsOf(s)[k] < 62
    ensures Code(DrawsOf(s)) == s
  {
    CharactersAreAlphanumeric();
    var d := DrawsOf(s);
    CodeAt(d);
  }

  /** Different draws give different codes: the alphabet has no repeated symbol. */
  lemma CodeIsInjective(d1: Draws, d2: Draws)
    requires Code(d1) == Code(d2)
    ensures d1 == d2
  {
    GeneratedIsShortCode(d1);
    GeneratedIsShortCode(d2);
    CharactersAreAlphanumeric();
    forall k | 0 <= k < CodeLength
      ensures d1[k] == d2[k]
    {
      assert IndexOf(Characters[d1[k]]) == d1[k];
      assert IndexOf(Characters[d2[k]]) == d2[k];
    }
  }

  /** generateShortCode: six loop steps, each appending the character at one draw. */
  method GenerateShortCode(draws: Draws) returns (code: string)
    ensures code == Code(draws)
    ensures IsShortCode(code)
    ensures forall k :: 0 <= k < CodeLength ==> code[k] == Characters[draws[k]]
  {
    code := "";
    for i := 0 to CodeLength
      invariant code == Code(draws[..i])
    {
      assert draws[..i + 1][..i] == draws[..i];
      code := code + CharAt(Characters, draws[i]);
    }
    assert draws[..CodeLength] == draws;
    GeneratedIsShortCode(draws);
  }
}
