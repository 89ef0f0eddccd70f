/**
 * The shape of an API key: 32 characters, each drawn from the 62-character
 * alphanumeric alphabet (`rand::distributions::Alphanumeric`).  One random
 * sample is an index into that alphabet; a key is built from 32 samples,
 * one character per sample, in draw order.
 */
module ApiKeys {

  /** Number of characters in a key (the `0..32` range). */
  const KeyLength: nat := 32

  /** Size of the alphanumeric alphabet: 26 upper-case, 26 lower-case, 10 digits. */
  const AlphabetSize: nat := 62

  /** One draw of the alphanumeric distribution, as an index into the alphabet. */
  type Sample = i: nat | i < AlphabetSize

  predicate IsAlphanumeric(c: char) {
    ('A' <= c <= 'Z') || ('a' <= c <= 'z') || ('0' <= c <= '9')
  }

  /** The 32 samples one key is built from, in draw order. */
  type Draw = d: seq<Sample> | |d| == KeyLength witness seq(KeyLength, _ => 0)

  /** A string of the shape every generated key has. */
  predicate IsApiKey(k: string) {
    |k| == KeyLength && forall i :: 0 <= i < |k| ==> IsAlphanumeric(k[i])
  }

  /** The character a sample stands for: `A`..`Z`, then `a`..`z`, then `0`..`9`. */
  function AlphabetChar(s: Sample): (c: char)
    ensures IsAlphanumeric(c)
  {
    if s < 26 then ('A' as int + s) as char
    else if s < 52 then ('a' as int + (s - 26)) as char
    else ('0' as int + (s - 52)) as char
  }

  /** Inverse of AlphabetChar on alphanumeric characters. */
  function SampleOf(c: char): (s: Sample)
    requires IsAlphanumeric(c)
    ensures AlphabetChar(s) == c
  {
    if 'A' <= c <= 'Z' then c as int - 'A' as int
    else if 'a' <= c <= 'z' then 26 + (c as int - 'a' as int)
    else 52 + (c as int - '0' as int)
  }

  lemma SampleOfAlphabetChar(s: Sample)
    ensures SampleOf(AlphabetChar(s)) == s
  {
  }

  /**
   * The string the samples spell, one character per sample (the `map` and
   * `collect` over the draws).
   */
  function Spell(samples: seq<Sample>): (k: string)
    ensures |k| == |samples|
    ensures forall i :: 0 <= i < |k| ==> k[i] == AlphabetChar(samples[i])
  {
    if samples == [] then [] else [AlphabetChar(samples[0])] + Spell(samples[1..])
  }

  /** The samples a string of alphanumeric characters was spelled from. */
  function Unspell(k: string): (samples: seq<Sample>)
    requires forall i :: 0 <= i < |k| ==> IsAlphanumeric(k[i])
    ensures |samples| == |k|
    ensures forall i :: 0 <= i < |k| ==> AlphabetChar(samples[i]) == k[i]
  {
    if k == [] then [] else [SampleOf(k[0])] + Unspell(k[1..])
  }

  /** A candidate key built from exactly one draw of 32 samples. */
  function KeyOf(draw: Draw): (k: string)
    ensures IsApiKey(k)
  {
    Spell(draw)
  }

  /** Distinct draws give distinct keys: a key determines the draw it came from. */
  lemma UnspellKeyOf(draw: Draw)
    ensures Unspell(KeyOf(draw)) == draw
  {
  }

  /** Every string of the key shape is the key of some draw. */
  lemma KeyOfUnspell(k: string)
    requires IsApiKey(k)
    ensures |Unspell(k)| == KeyLength && KeyOf(Unspell(k)) == k
  {
  }

  /** KeyOf is injective. */
  lemma KeyOfInjective(d1: Draw, d2: Draw)
    ensures KeyOf(d1) == KeyOf(d2) <==> d1 == d2
  {
  }
}
