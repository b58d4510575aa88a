/** The text checks that several validators share: blank text, substrings, and restricted words. */
module Texts {

  /** Python's `needle in text`. */
  predicate Contains(text: string, needle: string) {
    exists i :: 0 <= i <= |text| && StandsAt(text, needle, i)
  }

  predicate StandsAt(text: string, needle: string, i: nat)
    requires i <= |text|
  {
    needle <= text[i..]
  }

  /** The characters that Python's `str.strip` removes. */
  predicate Space(c: char) {
    || '\U{9}' <= c <= '\U{D}'
    || '\U{1C}' <= c <= '\U{20}'
    || c in {'\U{85}', '\U{A0}', '\U{1680}', '\U{2028}', '\U{2029}', '\U{202F}', '\U{205F}', '\U{3000}'}
    || '\U{2000}' <= c <= '\U{200A}'
  }

  predicate Blank(text: string) {
    forall i | 0 <= i < |text| :: Space(text[i])
  }

  /** `_validate_required_text`. */
  predicate RequiredText(text: string, maxLength: nat) {
    !Blank(text) && |text| <= maxLength
  }

  /** How the characters outside ASCII fold, and which of them are word characters, is left open. */
  const OtherFold: char -> string

  const OtherWord: char -> bool

  function LowerChar(c: char): char {
    if 'A' <= c <= 'Z' then c - 'A' + 'a' else c
  }

  function FoldedChar(c: char): string {
    if c < '\U{80}' then [LowerChar(c)] else OtherFold(c)
  }

  /** Python's `casefold`. */
  function Folded(text: string): string {
    if text == "" then "" else Folded(text[..|text| - 1]) + FoldedChar(text[|text| - 1])
  }

  predicate AsciiAlphanumeric(c: char) {
    'A' <= c <= 'Z' || 'a' <= c <= 'z' || '0' <= c <= '9'
  }

  predicate WordChar(c: char) {
    if c < '\U{80}' then AsciiAlphanumeric(c) || c == '_' else OtherWord(c)
  }

  /** The characters of a token, and the four others that a pattern ignoring case takes for ASCII letters. */
  predicate TokenChar(c: char) {
    || AsciiAlphanumeric(c) || c in {'.', '_', '~', '+', '/', '=', '-'}
    || c in {'\U{130}', '\U{131}', '\U{17F}', '\U{212A}'}
  }

  /** The word "bearer", white space and twelve token characters, starting at `i`. */
  predicate BearerAt(text: string, i: nat, spaces: nat) {
    && 0 < spaces && i + 6 + spaces + 12 <= |text|
    && (i == 0 || !WordChar(text[i - 1]))
    && (forall j | 0 <= j < 6 :: LowerChar(text[i + j]) == "bearer"[j])
    && (forall j | i + 6 <= j < i + 6 + spaces :: Space(text[j]))
    && forall j | i + 6 + spaces <= j < i + 6 + spaces + 12 :: TokenChar(text[j])
  }

  const RESTRICTED_PARTS: seq<string> := [
    "chain_of_thought", "chain-of-thought", "hidden_reasoning", "internal_reasoning", "prompt_tokens",
    "access_token", "refresh_token", "authorization", "cookie", "password", "secret", "credential",
    "private_key", "signed_url"]

  /** Text that an activity must not show. */
  predicate Restricted(text: string) {
    || (exists k | 0 <= k < |RESTRICTED_PARTS| :: Contains(Folded(text), RESTRICTED_PARTS[k]))
    || (exists i, n | 0 <= i <= |text| && 0 <= n <= |text| :: BearerAt(text, i, n))
  }

  ghost predicate Ascii(text: string) {
    forall i | 0 <= i < |text| :: text[i] < '\U{80}'
  }

  lemma {:induction false} FoldIsCharwise(text: string)
    requires Ascii(text)
    ensures |Folded(text)| == |text| && forall i | 0 <= i < |text| :: Folded(text)[i] == LowerChar(text[i])
  {
    if text == "" {
    } else {
      FoldIsCharwise(text[..|text| - 1]);
    }
  }

  /** Short ASCII identifiers hold no restricted part. */
  lemma ShortIsUnrestricted(text: string)
    requires Ascii(text) && (|text| < 6 || (|text| == 6 && text[2] == '_'))
    ensures !Restricted(text)
  {
    FoldIsCharwise(text);
    forall k | 0 <= k < |RESTRICTED_PARTS| ensures !Contains(Folded(text), RESTRICTED_PARTS[k]) {
      assert |RESTRICTED_PARTS[k]| > 6 || RESTRICTED_PARTS[k] == "cookie" || RESTRICTED_PARTS[k] == "secret";
    }
  }

  /** A text that holds one of these words, in whatever case, may not be shown. */
  lemma WordsAreRestricted(before: string, word: string, after: string, part: string)
    requires Ascii(before + word + after)
    requires part in {"chain_of_thought", "chain-of-thought", "hidden_reasoning", "internal_reasoning", "prompt_tokens",
                      "access_token", "refresh_token", "authorization", "cookie", "password", "secret", "credential",
                      "private_key", "signed_url"}
    requires |word| == |part| && forall i | 0 <= i < |word| :: LowerChar(word[i]) == part[i]
    ensures Restricted(before + word + after)
  {
    var k := PartAt(part);
    FoldedHolds(before, word, after, part);
    hide Folded, StandsAt, BearerAt, Ascii, LowerChar;
    assert Contains(Folded(before + word + after), RESTRICTED_PARTS[k]);
  }

  lemma FoldedHolds(before: string, word: string, after: string, part: string)
    requires Ascii(before + word + after)
    requires |word| == |part| && forall i | 0 <= i < |word| :: LowerChar(word[i]) == part[i]
    ensures Contains(Folded(before + word + after), part)
  {
    hide LowerChar, Folded;
    var text := before + word + after;
    FoldIsCharwise(text);
    var folded := Folded(text);
    assert forall i | 0 <= i < |part| :: text[|before| + i] == word[i] && folded[|before| + i] == part[i];
    assert folded[|before|..][..|part|] == part;
    assert StandsAt(folded, part, |before|);
  }

  lemma PartAt(part: string) returns (k: nat)
    requires part in {"chain_of_thought", "chain-of-thought", "hidden_reasoning", "internal_reasoning", "prompt_tokens",
                      "access_token", "refresh_token", "authorization", "cookie", "password", "secret", "credential",
                      "private_key", "signed_url"}
    ensures k < |RESTRICTED_PARTS| && RESTRICTED_PARTS[k] == part
  {
    if part == "chain_of_thought" { k := 0; }
    else if part == "chain-of-thought" { k := 1; }
    else if part == "hidden_reasoning" { k := 2; }
    else if part == "internal_reasoning" { k := 3; }
    else if part == "prompt_tokens" { k := 4; }
    else if part == "access_token" { k := 5; }
    else if part == "refresh_token" { k := 6; }
    else if part == "authorization" { k := 7; }
    else if part == "cookie" { k := 8; }
    else if part == "password" { k := 9; }
    else if part == "secret" { k := 10; }
    else if part == "credential" { k := 11; }
    else if part == "private_key" { k := 12; }
    else { k := 13; }
  }

  /** Neither may one that shows a bearer token: the word, a space, and at least twelve letters, digits or
      `. _ ~ + / = -`. */
  lemma BearerIsRestricted(token: string, after: string)
    requires 12 <= |token|
    requires forall i | 0 <= i < |token| ::
               || 'a' <= token[i] <= 'z' || 'A' <= token[i] <= 'Z' || '0' <= token[i] <= '9'
               || token[i] in {'.', '_', '~', '+', '/', '=', '-'}
    ensures Restricted("Bearer " + token + after)
  {
    var text := "Bearer " + token + after;
    assert BearerAt(text, 0, 1);
  }
}
