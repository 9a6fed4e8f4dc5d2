/** API-key generation: thirty-two characters, each picked from a
    sixty-two-letter alphabet by a uniform random draw. */
module ApiKeys {

  const Characters: string := "ABCDEFGHIJKLMNOPQRSTUVWXYZabcdefghijklmnopqrstuvwxyz0123456789"
  const KeyLength: nat := 32

  /** A draw of `Math.random()`: at least 0 and below 1. */
  predicate IsDraw(r: real) {
    0.0 <= r < 1.0
  }

  /** `Math.floor(r * characters.length)`. */
  function PickIndex(r: real): int {
    (r * |Characters| as real).Floor
  }

  /** A draw always picks an index inside the alphabet. */
  lemma PickInRange(r: real)
    requires IsDraw(r)
    ensures 0 <= PickIndex(r) < |Characters|
  {
    assert |Characters| == 62;
    assert 0.0 <= r * 62.0 < 62.0;
  }

  /** `characters.charAt(i)`: one character, or "" outside the string. */
  function CharAt(s: string, i: int): (c: string)
    ensures 0 <= i < |s| ==> c == [s[i]]
    ensures !(0 <= i < |s|) ==> c == ""
  {
    if 0 <= i < |s| then [s[i]] else ""
  }

  /** The key the draws produce: character `i` is picked by draw `i`. */
  function KeyOf(draws: seq<real>): (key: string)
    requires |draws| == KeyLength && forall i :: 0 <= i < |draws| ==> IsDraw(draws[i])
    ensures |key| == KeyLength
  {
    seq(KeyLength, i requires 0 <= i < KeyLength =>
      PickInRange(draws[i]);
      Characters[PickIndex(draws[i])])
  }

  /** Every character of a key is a letter of the alphabet. */
  lemma KeyAlphabet(draws: seq<real>)
    requires |draws| == KeyLength && forall i :: 0 <= i < |draws| ==> IsDraw(draws[i])
    ensures forall i :: 0 <= i < KeyLength ==> KeyOf(draws)[i] in Characters
  {
    forall i | 0 <= i < KeyLength ensures KeyOf(draws)[i] in Characters {
      PickInRange(draws[i]);
      var k := PickIndex(draws[i]);
      assert KeyOf(draws)[i] == Characters[k];
    }
  }

  /** `generateApiKey`, with the random draws given in order. */
  method GenerateApiKey(draws: seq<real>) returns (apiKey: string)
    requires |draws| == KeyLength && forall i :: 0 <= i < |draws| ==> IsDraw(draws[i])
    ensures apiKey == KeyOf(draws)
    ensures |apiKey| == KeyLength
    ensures forall i :: 0 <= i < |apiKey| ==> apiKey[i] in Characters
  {
    apiKey := "";
    for i := 0 to KeyLength
      invariant |apiKey| == i
      invariant apiKey == KeyOf(draws)[..i]
    {
      var randomIndex := PickIndex(draws[i]);
      PickInRange(draws[i]);
      apiKey := apiKey + CharAt(Characters, randomIndex);
    }
    KeyAlphabet(draws);
  }

  /** The draw that picks letter `k`. */
  function DrawFor(k: nat): real
    requires k < |Characters|
  {
    k as real / |Characters| as real
  }

  lemma DrawForPicks(k: nat)
    requires k < |Characters|
    ensures IsDraw(DrawFor(k)) && PickIndex(DrawFor(k)) == k
  {
    assert |Characters| == 62;
    assert DrawFor(k) * 62.0 == k as real;
  }

  /** Every thirty-two-character string over the alphabet is a key some
      draws produce. */
  lemma EveryKeyReachable(key: string)
    requires |key| == KeyLength && forall i :: 0 <= i < |key| ==> key[i] in Characters
    ensures exists draws: seq<real> ::
      |draws| == KeyLength && (forall i :: 0 <= i < |draws| ==> IsDraw(draws[i])) && KeyOf(draws) == key
  {
    var picks := seq(KeyLength, i requires 0 <= i < KeyLength => IndexIn(Characters, key[i]));
    var draws := seq(KeyLength, i requires 0 <= i < KeyLength => DrawFor(picks[i]));
    forall i | 0 <= i < KeyLength ensures IsDraw(draws[i]) && PickIndex(draws[i]) == picks[i] {
      DrawForPicks(picks[i]);
    }
    assert KeyOf(draws) == key;
  }

  /** The position of `c` in `s`. */
  function IndexIn(s: string, c: char): (k: nat)
    requires c in s
    ensures k < |s| && s[k] == c
  {
    if s[0] == c then 0 else IndexIn(s[1..], c) + 1
  }
}
