/** Day 15, shared code: the HASH algorithm of the initialization
    sequence. Starting from 0, every character adds its code, multiplies
    by 17 and keeps the remainder modulo 256. */
module Day15Shared {

  /** `my_hash`: the left fold over the characters. */
  function Hash(s: string): (h: nat)
    ensures h < 256
  {
    if s == [] then 0
    else ((Hash(s[..|s| - 1]) + s[|s| - 1] as int) * 17) % 256
  }

  /** The same fold without any reduction. */
  function Unreduced(s: string): nat {
    if s == [] then 0
    else (Unreduced(s[..|s| - 1]) + s[|s| - 1] as int) * 17
  }

  lemma {:induction false} ReduceEarly(a: nat, c: nat)
    ensures ((a % 256 + c) * 17) % 256 == ((a + c) * 17) % 256
  {
    var q, r := a / 256, a % 256;
    assert a == 256 * q + r;
    assert (a + c) * 17 == (r + c) * 17 + 256 * (17 * q);
    ModShift((r + c) * 17, 17 * q);
  }

  lemma {:induction false} ModShift(x: int, k: int)
    ensures (x + 256 * k) % 256 == x % 256
  {
    var q, r := x / 256, x % 256;
    assert x + 256 * k == 256 * (q + k) + r && 0 <= r < 256;
  }

  /** Reducing after every character or only once at the end gives the
      same hash. */
  lemma {:induction false} HashIsUnreducedModulo(s: string)
    ensures Hash(s) == Unreduced(s) % 256
  {
    if s != [] {
      var init := s[..|s| - 1];
      HashIsUnreducedModulo(init);
      ReduceEarly(Unreduced(init), s[|s| - 1] as int);
    }
  }

  /** One more character: one more step of the fold. */
  lemma {:induction false} HashAppend(s: string, c: char)
    ensures Hash(s + [c]) == ((Hash(s) + c as int) * 17) % 256
  {
    assert (s + [c])[..|s|] == s;
  }

  /** The first test vectors. */
  lemma {:induction false} HashExamples()
    ensures Hash("rn=1") == 30 && Hash("cm-") == 253
  {
    HashRn1("rn=1");
    HashCm("cm-");
  }

  lemma {:induction false} HashRn1(s: string)
    requires |s| == 4 && s[0] == 'r' && s[1] == 'n' && s[2] == '=' && s[3] == '1'
    ensures Hash(s) == 30
  {
    assert s[..0] == [];
    HashPrefix(s, 0, 0, 146);
    HashPrefix(s, 1, 146, 0);
    HashPrefix(s, 2, 0, 13);
    HashPrefix(s, 3, 13, 30);
    assert s[..4] == s;
  }

  lemma {:induction false} HashCm(s: string)
    requires |s| == 3 && s[0] == 'c' && s[1] == 'm' && s[2] == '-'
    ensures Hash(s) == 253
  {
    assert s[..0] == [];
    HashPrefix(s, 0, 0, 147);
    HashPrefix(s, 1, 147, 0);
    HashPrefix(s, 2, 0, 253);
    assert s[..3] == s;
  }

  /** One more character of `s`: one more step of the fold. */
  lemma {:induction false} HashPrefix(s: string, k: nat, h: nat, v: nat)
    requires k < |s| && Hash(s[..k]) == h && v == ((h + s[k] as int) * 17) % 256
    ensures Hash(s[..k + 1]) == v
  {
    assert s[..k + 1][..k] == s[..k];
  }
}
