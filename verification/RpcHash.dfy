/** The request hash: for every byte an exclusive-or, then a multiplication modulo 2^64. */
module RpcHash {

  const MODULUS: nat := 0x1_0000_0000_0000_0000
  const OFFSET: nat := 1469598103934665603
  const PRIME: nat := 1099511628211
  /** PRIME * INVERSE == 1 + WRAPS * MODULUS: the multiplier is odd, so it has an inverse. */
  const INVERSE: nat := 0xCE96_5057_AFF6_957B
  const WRAPS: nat := 887285111055

  /** Exclusive-or of two numbers, bit by bit. */
  function Xor(a: nat, b: nat): nat {
    if a == 0 && b == 0 then 0 else (a + b) % 2 + 2 * Xor(a / 2, b / 2)
  }

  function Mix(hash: nat, c: char): (h: nat)
    ensures h < MODULUS
  {
    Xor(hash, c as int) * PRIME % MODULUS
  }

  type Mixer = (nat, char) -> nat

  function Fold(step: Mixer, hash: nat, t: string): nat
    decreases t
  {
    if t == "" then hash else Fold(step, step(hash, t[0]), t[1..])
  }

  /** The whole hash is one fold over the three components with bars between them. */
  function HashOf(name: string, params: string, session: string): nat {
    Fold(Mix, OFFSET, name + "|" + params + "|" + session)
  }

  lemma {:induction false} FoldAppend(step: Mixer, hash: nat, t: string, u: string)
    ensures Fold(step, hash, t + u) == Fold(step, Fold(step, hash, t), u)
    decreases t
  {
    if t == "" {
      assert t + u == u;
    } else {
      assert (t + u)[1..] == t[1..] + u;
      FoldAppend(step, step(hash, t[0]), t[1..], u);
    }
  }

  ghost predicate StaysBelow(step: Mixer, bound: nat) {
    forall h: nat, c :: step(h, c) < bound
  }

  lemma {:induction false} FoldBounded(step: Mixer, bound: nat, hash: nat, t: string)
    requires StaysBelow(step, bound) && hash < bound
    ensures Fold(step, hash, t) < bound
    decreases t
  {
    if t != "" {
      FoldBounded(step, bound, step(hash, t[0]), t[1..]);
    }
  }

  lemma HashIsWord(hash: nat, t: string)
    requires hash < MODULUS
    ensures Fold(Mix, hash, t) < MODULUS
  {
    FoldBounded(Mix, MODULUS, hash, t);
  }

  /** `anything_rpc_hash_request`: two nested loops over five parts. */
  method HashRequest(name: string, params: string, session: string) returns (hash: nat)
    ensures hash == HashOf(name, params, session) < MODULUS
  {
    hash := OFFSET;
    var parts := [name, "|", params, "|", session];
    ghost var read := "";
    var p := 0;
    while p < |parts|
      invariant 0 <= p <= |parts|
      invariant hash == Fold(Mix, OFFSET, read)
      invariant read == Joined(parts[..p])
    {
      var i := 0;
      assert parts[p][..0] == "";
      while i < |parts[p]|
        invariant 0 <= i <= |parts[p]|
        invariant hash == Fold(Mix, Fold(Mix, OFFSET, read), parts[p][..i])
      {
        FoldLast(Mix, Fold(Mix, OFFSET, read), parts[p], i);
        hash := Mix(hash, parts[p][i]);
        i := i + 1;
      }
      assert parts[p][..i] == parts[p];
      FoldAppend(Mix, OFFSET, read, parts[p]);
      JoinedLast(parts, p);
      read := read + parts[p];
      p := p + 1;
    }
    assert parts[..5] == parts;
    FiveParts(name, "|", params, "|", session);
    HashIsWord(OFFSET, read);
  }

  function Joined(parts: seq<string>): string {
    if parts == [] then "" else Joined(parts[..|parts| - 1]) + parts[|parts| - 1]
  }

  lemma JoinedLast(parts: seq<string>, p: nat)
    requires p < |parts|
    ensures Joined(parts[..p + 1]) == Joined(parts[..p]) + parts[p]
  {
    assert parts[..p + 1][..p] == parts[..p];
  }

  lemma FiveParts(a: string, b: string, c: string, d: string, e: string)
    ensures Joined([a, b, c, d, e]) == a + b + c + d + e
  {
    JoinedLast([a, b, c, d, e], 0);
    JoinedLast([a, b, c, d, e], 1);
    JoinedLast([a, b, c, d, e], 2);
    JoinedLast([a, b, c, d, e], 3);
    JoinedLast([a, b, c, d, e], 4);
    assert [a, b, c, d, e][..5] == [a, b, c, d, e];
    assert Joined([a, b, c, d, e][..0]) == "";
  }

  lemma FoldLast(step: Mixer, hash: nat, t: string, i: nat)
    requires i < |t|
    ensures Fold(step, hash, t[..i + 1]) == step(Fold(step, hash, t[..i]), t[i])
  {
    assert t[..i + 1] == t[..i] + [t[i]];
    FoldAppend(step, hash, t[..i], [t[i]]);
    assert [t[i]][1..] == "";
  }

  // ---- every step is a bijection ----------------------------------------------------

  lemma {:induction false} XorBelow(a: nat, b: nat, bits: nat)
    requires a < Power2(bits) && b < Power2(bits)
    ensures Xor(a, b) < Power2(bits)
  {
    if bits > 0 {
      XorBelow(a / 2, b / 2, bits - 1);
    }
  }

  function Power2(bits: nat): (n: nat)
    ensures n > 0
  {
    if bits == 0 then 1 else 2 * Power2(bits - 1)
  }

  lemma XorBound(a: nat, c: char)
    requires a < MODULUS
    ensures Xor(a, c as int) < MODULUS
  {
    assert Power2(8) == 0x100;
    PowerAdds(8, 8, 0x100, 0x100);
    PowerAdds(16, 16, 0x1_0000, 0x1_0000);
    PowerAdds(32, 32, 0x1_0000_0000, 0x1_0000_0000);
    XorBelow(a, c as int, 64);
  }

  lemma {:induction false} PowerAdds(m: nat, n: nat, x: nat, y: nat)
    requires Power2(m) == x && Power2(n) == y
    ensures Power2(m + n) == x * y
  {
    if n > 0 {
      PowerAdds(m, n - 1, x, Power2(n - 1));
      assert x * (2 * Power2(n - 1)) == 2 * (x * Power2(n - 1));
    }
  }

  lemma {:induction false} XorCancels(a: nat, b: nat, c: nat)
    requires Xor(a, b) == Xor(a, c)
    ensures b == c
  {
    if a != 0 || b != 0 || c != 0 {
      XorCancels(a / 2, b / 2, c / 2);
    }
  }

  lemma {:induction false} XorCommutes(a: nat, b: nat)
    ensures Xor(a, b) == Xor(b, a)
  {
    if a != 0 || b != 0 {
      XorCommutes(a / 2, b / 2);
    }
  }

  /** Multiplying by the odd multiplier modulo 2^64 is injective on 64-bit words. */
  lemma TimesPrimeInjective(x: nat, y: nat)
    requires x < MODULUS && y < MODULUS
    requires x * PRIME % MODULUS == y * PRIME % MODULUS
    ensures x == y
  {
    var k := x * PRIME / MODULUS - y * PRIME / MODULUS;
    assert (x - y) * PRIME == k * MODULUS;
    assert (x - y) * (PRIME * INVERSE) == k * INVERSE * MODULUS;
    assert x - y == (k * INVERSE - (x - y) * WRAPS) * MODULUS;
  }

  lemma {:induction false} XorUnfold(a: nat, b: nat)
    ensures Xor(a, b) == (a + b) % 2 + 2 * Xor(a / 2, b / 2)
    ensures Xor(0, 0) == 0
  {}

  lemma {:induction false} XorBits(a: nat, b: nat)
    ensures Xor(a, b) % 2 == (a + b) % 2 && Xor(a, b) / 2 == Xor(a / 2, b / 2)
    ensures Xor(0, 0) == 0
  {
    hide Xor;
    XorUnfold(a, b);
  }

  lemma {:induction false} XorTwice(a: nat, b: nat)
    ensures Xor(Xor(a, b), b) == a
  {
    hide Xor;
    XorBits(a, b);
    if a != 0 || b != 0 {
      var x := Xor(a, b);
      XorBits(x, b);
      XorTwice(a / 2, b / 2);
      assert Xor(x, b) / 2 == a / 2 && Xor(x, b) % 2 == a % 2;
    }
  }

  lemma TimesInverse(x: nat)
    requires x < MODULUS
    ensures x * PRIME % MODULUS * INVERSE % MODULUS == x
  {
    var q, y := x * PRIME / MODULUS, x * PRIME % MODULUS;
    assert y == x * PRIME - q * MODULUS;
    assert y * INVERSE == x * (PRIME * INVERSE) - q * INVERSE * MODULUS;
    assert x * (PRIME * INVERSE) == x + x * WRAPS * MODULUS;
    assert y * INVERSE == x + (x * WRAPS - q * INVERSE) * MODULUS;
    RemainderIs(x, x * WRAPS - q * INVERSE);
  }

  lemma RemainderIs(x: nat, k: int)
    requires x < MODULUS
    ensures (x + k * MODULUS) % MODULUS == x
  {}

  /** One step backwards: first undo the multiplication, then the exclusive-or. */
  function UnMix(hash: nat, c: char): nat {
    Xor(hash * INVERSE % MODULUS, c as int)
  }

  function Unwind(back: Mixer, hash: nat, t: string): nat
    decreases |t|
  {
    if t == "" then hash else Unwind(back, back(hash, t[|t| - 1]), t[..|t| - 1])
  }

  ghost predicate Undoes(back: Mixer, step: Mixer, bound: nat) {
    forall hash: nat, c | hash < bound :: back(step(hash, c), c) == hash
  }

  lemma UnMixUndoes(hash: nat, c: char)
    requires hash < MODULUS
    ensures UnMix(Mix(hash, c), c) == hash
  {
    XorBound(hash, c);
    TimesInverse(Xor(hash, c as int));
    XorTwice(hash, c as int);
  }

  lemma {:induction false} UnwindFold(back: Mixer, step: Mixer, bound: nat, hash: nat, t: string)
    requires Undoes(back, step, bound) && StaysBelow(step, bound) && hash < bound
    ensures Unwind(back, Fold(step, hash, t), t) == hash
  {
    if t != "" {
      var n := |t| - 1;
      assert t[..n + 1] == t;
      FoldLast(step, hash, t, n);
      FoldBounded(step, bound, hash, t[..n]);
      UnwindFold(back, step, bound, hash, t[..n]);
    }
  }

  lemma UnMixUndoesMix()
    ensures Undoes(UnMix, Mix, MODULUS)
  {
    forall hash: nat, c | hash < MODULUS ensures UnMix(Mix(hash, c), c) == hash {
      UnMixUndoes(hash, c);
    }
  }

  lemma MixIsWord()
    ensures StaysBelow(Mix, MODULUS)
  {}

  /** The constants are the code's and the inverse is one. */
  lemma InverseIsExact()
    ensures 1099511628211 * INVERSE % 0x1_0000_0000_0000_0000 == 1 && PRIME == 1099511628211
  {}

  /** The hash can be run backwards over what was hashed, and then arrives at the starting
      constant of the code: so the multiplication by that multiplier comes after the
      exclusive-or, byte by byte, over exactly these parts. */
  lemma HashUnwinds(name: string, params: string, session: string)
    ensures Unwind(UnMix, HashOf(name, params, session), name + "|" + params + "|" + session) == 1469598103934665603
    ensures 1099511628211 * INVERSE % 0x1_0000_0000_0000_0000 == 1 && PRIME == 1099511628211
  {
    InverseIsExact();
    hide Mix, UnMix, Fold, Unwind;
    UnMixUndoesMix();
    MixIsWord();
    UnwindFold(UnMix, Mix, MODULUS, OFFSET, name + "|" + params + "|" + session);
  }

  /** Neither two hashes nor two bytes are merged by a step. */
  lemma MixInjective(g: nat, h: nat, c: char, d: char)
    requires g < MODULUS && h < MODULUS && Mix(g, c) == Mix(h, d)
    ensures g == h <==> c == d
  {
    XorBound(g, c);
    XorBound(h, d);
    TimesPrimeInjective(Xor(g, c as int), Xor(h, d as int));
    if g == h {
      XorCancels(g, c as int, d as int);
    } else if c == d {
      XorCommutes(g, c as int);
      XorCommutes(h, c as int);
      XorCancels(c as int, g, h);
    }
  }

  /** A step that keeps different words different, and different bytes from one word. */
  ghost predicate Separates(step: Mixer, bound: nat) {
    && StaysBelow(step, bound)
    && (forall g: nat, h: nat, c :: g < bound && h < bound && step(g, c) == step(h, c) ==> g == h)
    && (forall g: nat, c, d :: g < bound && step(g, c) == step(g, d) ==> c == d)
  }

  lemma MixSeparates()
    ensures Separates(Mix, MODULUS)
  {
    forall g: nat, h: nat, c | g < MODULUS && h < MODULUS && Mix(g, c) == Mix(h, c) ensures g == h {
      MixInjective(g, h, c, c);
    }
    forall g: nat, c, d | g < MODULUS && Mix(g, c) == Mix(g, d) ensures c == d {
      MixInjective(g, g, c, d);
    }
  }

  lemma {:induction false} FoldInjective(step: Mixer, bound: nat, g: nat, h: nat, t: string)
    requires Separates(step, bound) && g < bound && h < bound && g != h
    ensures Fold(step, g, t) != Fold(step, h, t)
    decreases t
  {
    if t != "" {
      FoldInjective(step, bound, step(g, t[0]), step(h, t[0]), t[1..]);
    }
  }

  lemma OneByteChangesFold(step: Mixer, bound: nat, start: nat, t: string, i: nat, d: char)
    requires Separates(step, bound) && start < bound && i < |t| && t[i] != d
    ensures Fold(step, start, t) != Fold(step, start, t[i := d])
  {
    var u := t[i := d];
    var h := Fold(step, start, t[..i]);
    FoldBounded(step, bound, start, t[..i]);
    FoldLast(step, start, t, i);
    FoldLast(step, start, u, i);
    assert u[..i] == t[..i];
    assert t == t[..i + 1] + t[i + 1..] && u == u[..i + 1] + t[i + 1..];
    FoldAppend(step, start, t[..i + 1], t[i + 1..]);
    FoldAppend(step, start, u[..i + 1], t[i + 1..]);
    FoldInjective(step, bound, step(h, t[i]), step(h, d), t[i + 1..]);
  }

  predicate DifferAt(t: string, u: string, i: nat) {
    && |t| == |u| && i < |t| && t[i] != u[i]
    && forall j | 0 <= j < |t| && j != i :: t[j] == u[j]
  }

  /** Two requests whose components have equal lengths and that differ in one byte, in
      whichever component it is, have different hashes. */
  lemma OneByteChangesHash(m: string, p: string, s: string, m': string, p': string, s': string, i: nat)
    requires || (DifferAt(m, m', i) && p == p' && s == s')
             || (m == m' && DifferAt(p, p', i) && s == s')
             || (m == m' && p == p' && DifferAt(s, s', i))
    ensures HashOf(m, p, s) != HashOf(m', p', s')
  {
    var t := m + "|" + p + "|" + s;
    var u := m' + "|" + p' + "|" + s';
    var k := if DifferAt(m, m', i) then i else if DifferAt(p, p', i) then |m| + 1 + i else |m| + |p| + 2 + i;
    assert t[k] != u[k] && t[k := u[k]] == u;
    MixSeparates();
    OneByteChangesFold(Mix, MODULUS, OFFSET, t, k, u[k]);
  }
}
