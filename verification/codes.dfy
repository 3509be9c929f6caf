/** Identifier minting and normalisation (server.py, `CHARS`, `_code`,
    `_normalise`).

    Codes and secrets are strings over a 34-symbol upper-case alphabet: the
    26 letters and the digits 2 to 9. Case mapping is modelled on ASCII
    letters only. */
module Codes {

  /** The lower-case letters and the digits 2-9, as written in the source before `.upper()`. */
  const RAW_CHARS: string := "abcdefghijklmnopqrstuvwxyz23456789"

  /** The alphabet every generated code and secret is drawn from. */
  const CHARS: string := Upper(RAW_CHARS)

  /** Length of a generated short code. */
  const CODE_LENGTH: nat := 6

  /** Length of a generated secret. */
  const SECRET_LENGTH: nat := 60

  predicate IsLower(c: char) {
    'a' <= c <= 'z'
  }

  predicate IsUpper(c: char) {
    'A' <= c <= 'Z'
  }

  function UpperChar(c: char): char {
    if IsLower(c) then (c as int - 32) as char else c
  }

  function LowerChar(c: char): char {
    if IsUpper(c) then (c as int + 32) as char else c
  }

  /** Python's `str.upper()` on ASCII text. */
  function Upper(s: string): string {
    seq(|s|, i requires 0 <= i < |s| => UpperChar(s[i]))
  }

  /** Python's `str.lower()` on ASCII text. */
  function Lower(s: string): string {
    seq(|s|, i requires 0 <= i < |s| => LowerChar(s[i]))
  }

  /** The symbol at position `i` of the alphabet, computed rather than looked up. */
  function SymbolAt(i: nat): (c: char)
    requires i < 34
  {
    if i < 26 then ('A' as int + i) as char else ('2' as int + i - 26) as char
  }

  /** A symbol of the alphabet: an upper-case letter or a digit from 2 to 9. */
  predicate InAlphabet(c: char) {
    IsUpper(c) || '2' <= c <= '9'
  }

  /** Every character of `s` is one that `_code` can produce. */
  predicate OverAlphabet(s: string) {
    forall i :: 0 <= i < |s| ==> InAlphabet(s[i])
  }

  /** Position of an alphabet symbol in `CHARS`. */
  function IndexOf(c: char): (r: nat)
    requires InAlphabet(c)
    ensures r < 34 && SymbolAt(r) == c
  {
    if IsUpper(c) then c as int - 'A' as int else c as int - '2' as int + 26
  }

  /** The alphabet has 34 symbols, laid out as A-Z then 2-9; in particular it
      holds no lower-case letter and neither `0` nor `1`. */
  lemma AlphabetShape()
    ensures |CHARS| == 34
    ensures forall i :: 0 <= i < 34 ==> CHARS[i] == SymbolAt(i)
    ensures forall c :: c in CHARS <==> InAlphabet(c)
    ensures '0' !in CHARS && '1' !in CHARS
    ensures forall i :: 0 <= i < |CHARS| ==> !IsLower(CHARS[i])
  {
    assert CHARS == seq(34, i requires 0 <= i < 34 => SymbolAt(i));
    forall c | InAlphabet(c)
      ensures c in CHARS
    {
      assert CHARS[IndexOf(c)] == c;
    }
  }

  /** The alphabet lists each symbol once, so a position determines a symbol and vice versa. */
  lemma AlphabetDistinct()
    ensures forall i, j :: 0 <= i < j < |CHARS| ==> CHARS[i] != CHARS[j]
  {
    AlphabetShape();
  }

  /** `_code(size)`: `size` independent draws from `CHARS`. The random source is
      the sequence `draws` of positions chosen by `random.choice`. */
  function Code(size: nat, draws: seq<nat>): (r: string)
    requires |draws| == size
    requires forall i :: 0 <= i < |draws| ==> draws[i] < 34
    ensures |r| == size
    ensures OverAlphabet(r)
    ensures forall i :: 0 <= i < size ==> r[i] == SymbolAt(draws[i])
    decreases size
  {
    AlphabetShape();
    if size == 0 then ""
    else Code(size - 1, draws[..size - 1]) + [CHARS[draws[size - 1]]]
  }

  /** The draws that spell `s`: the inverse of `Code` on strings over the alphabet. */
  function DrawsOf(s: string): (d: seq<nat>)
    requires OverAlphabet(s)
    ensures |d| == |s|
    ensures forall i :: 0 <= i < |d| ==> d[i] < 34
  {
    seq(|s|, i requires 0 <= i < |s| => IndexOf(s[i]))
  }

  /** Every string over the alphabet is a possible code of its length, and the
      draws that produce it are unique: `Code` and `DrawsOf` are inverse. */
  lemma CodeRoundTrip(s: string, draws: seq<nat>)
    requires OverAlphabet(s)
    requires forall i :: 0 <= i < |draws| ==> draws[i] < 34
    ensures Code(|s|, DrawsOf(s)) == s
    ensures DrawsOf(Code(|draws|, draws)) == draws
  {
  }

  /** `_normalise(text)`: upper-cases its input. The two `replace` calls in the
      source discard their results, so `0` and `1` pass through unchanged. */
  function Normalise(text: string): (r: string)
    ensures |r| == |text|
    ensures forall i :: 0 <= i < |r| ==> !IsLower(r[i])
    ensures forall i :: 0 <= i < |r| ==> LowerChar(r[i]) == LowerChar(text[i])
    ensures forall i :: 0 <= i < |r| ==> !IsLower(text[i]) ==> r[i] == text[i]
  {
    Upper(text)
  }

  /** Normalising twice is normalising once. */
  lemma NormaliseIdempotent(text: string)
    ensures Normalise(Normalise(text)) == Normalise(text)
  {
  }

  /** `0` and `1` survive normalisation: a code typed with them is never
      rewritten to `O` or `I`, so it cannot resolve to a generated code. */
  lemma NormaliseKeepsAmbiguousDigits(text: string, i: nat)
    requires i < |text| && text[i] in "01"
    ensures Normalise(text)[i] == text[i]
    ensures !OverAlphabet(Normalise(text))
  {
  }

  /** Normalisation fixes every string over the alphabet, so every generated code
      and secret is its own normal form. */
  lemma NormaliseFixesAlphabet(s: string)
    requires OverAlphabet(s)
    ensures Normalise(s) == s
  {
  }

  /** The URL handed out at creation holds the lower-cased key; normalising
      that form gives the key back when the key has no lower-case letter. */
  lemma LowerThenNormalise(key: string)
    requires forall i :: 0 <= i < |key| ==> !IsLower(key[i])
    ensures Normalise(Lower(key)) == key
  {
  }

  /** Normalisation is exactly case-insensitive equality: two texts normalise
      alike iff they agree up to the case of their letters. */
  lemma NormaliseCaseInsensitive(a: string, b: string)
    ensures Normalise(a) == Normalise(b) <==> Lower(a) == Lower(b)
  {
    if Lower(a) == Lower(b) {
      forall i | 0 <= i < |a|
        ensures Normalise(a)[i] == Normalise(b)[i]
      {
        assert Lower(a)[i] == Lower(b)[i];
      }
    }
    if Normalise(a) == Normalise(b) {
      forall i | 0 <= i < |a|
        ensures Lower(a)[i] == Lower(b)[i]
      {
        assert UpperChar(a[i]) == UpperChar(b[i]);
      }
    }
  }
}
