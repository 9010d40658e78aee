/**
 * SATI, the mindfulness layer of the brain service (packages/brain/sati.py):
 * it holds the last observed vibe and the last encoded intent vector.
 */
module Mindfulness {
  import opened Identity

  /** How many leading characters of a text its intent vector encodes. */
  const ENCODED_PREFIX: nat := 10

  function Abs(x: real): (r: real)
    ensures r >= 0.0 && (r == x || r == -x)
  {
    if x < 0.0 then -x else x
  }

  /** The entry a character contributes: its code point modulo 100, divided by 100. */
  function Fraction(c: char): (f: real)
    ensures 0.0 <= f <= 0.99
  {
    ((c as int) % 100) as real / 100.0
  }

  /** The first `ENCODED_PREFIX` characters of a text, or all of it when shorter. */
  function Prefix(text: string): (p: string)
    ensures |p| == if |text| < ENCODED_PREFIX then |text| else ENCODED_PREFIX
    ensures p <= text
  {
    if |text| < ENCODED_PREFIX then text else text[..ENCODED_PREFIX]
  }

  /** The mock embedding of a text: one fraction per character of its prefix. */
  function IntentVectorOf(text: string): (v: seq<real>)
    ensures |v| == |Prefix(text)|
    ensures forall k :: 0 <= k < |v| ==> v[k] == Fraction(text[k])
  {
    var p := Prefix(text);
    seq(|p|, k requires 0 <= k < |p| => Fraction(p[k]))
  }

  /**
   * Only the prefix is seen: texts that agree on their first ten characters
   * (or are equal when shorter) encode to the same vector, and every entry
   * lies between 0 and 0.99.
   */
  lemma IntentVectorSeesOnlyPrefix(a: string, b: string)
    requires Prefix(a) == Prefix(b)
    ensures IntentVectorOf(a) == IntentVectorOf(b)
    ensures forall k :: 0 <= k < |IntentVectorOf(a)| ==> 0.0 <= IntentVectorOf(a)[k] <= 0.99
  {
    var va, vb := IntentVectorOf(a), IntentVectorOf(b);
    forall k | 0 <= k < |va| ensures va[k] == vb[k] {
      assert a[k] == Prefix(a)[k] == Prefix(b)[k] == b[k];
    }
  }

  /** The state holder: the current vibe and the last intent vector. */
  class Sati {
    var currentVibe: Vibe
    var lastIntentVector: seq<real>

    /** A neutral vibe and no intent yet. */
    constructor()
      ensures currentVibe == Vibe(0.0, "NEUTRAL", 0.0)
      ensures lastIntentVector == []
    {
      currentVibe := Vibe(0.0, "NEUTRAL", 0.0);
      lastIntentVector := [];
    }

    /** Records a stimulus; the intensity is the score's magnitude. The voice input is only logged. */
    method Observe(voiceInput: string, vibeScore: real, tone: string) returns (vibe: Vibe)
      modifies this
      ensures currentVibe == Vibe(vibeScore, tone, Abs(vibeScore))
      ensures vibe == currentVibe && vibe.intensity >= 0.0
      ensures lastIntentVector == old(lastIntentVector)
    {
      currentVibe := Vibe(vibeScore, tone, Abs(vibeScore));
      vibe := currentVibe;
    }

    /** Encodes the text's prefix and remembers exactly the vector it returns. */
    method EncodeIntent(text: string) returns (vector: seq<real>)
      modifies this
      ensures vector == IntentVectorOf(text)
      ensures lastIntentVector == vector
      ensures currentVibe == old(currentVibe)
    {
      var prefix := Prefix(text);
      vector := [];
      var k := 0;
      while k < |prefix|
        invariant 0 <= k <= |prefix|
        invariant vector == IntentVectorOf(text)[..k]
      {
        vector := vector + [Fraction(prefix[k])];
        k := k + 1;
      }
      lastIntentVector := vector;
    }
  }
}
