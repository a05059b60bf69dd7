/** What a byte-at-a-time checksum detects, whatever its register and table, as
    long as one step is eight bits of polynomial division. */
module Checksum {
  import opened BitStrings
  import opened PolynomialDivision

  /** A checksum over bytes of type B with a register of type R. */
  datatype Coder<!R, !B> = Coder(
    step: (R, B) -> R, bits: R -> Bits, byteBits: B -> Bits, poly: Bits, init: R, zero: R)

  ghost predicate Sound<R(!new), B(!new)>(c: Coder<R, B>) {
    && Proper(c.poly)
    && (forall r: R :: |c.bits(r)| == |c.poly|)
    && (forall b: B :: |c.byteBits(b)| == 8)
    && (forall r: R, q: R :: c.bits(r) == c.bits(q) ==> r == q)
    && (forall b: B, d: B :: c.byteBits(b) == c.byteBits(d) ==> b == d)
    && (forall r: R, b: B :: c.bits(c.step(r, b)) == Feed(c.poly, c.bits(r), c.byteBits(b)))
    && c.bits(c.zero) == Clear(|c.poly|)
  }

  function Fold<R, B>(c: Coder<R, B>, r: R, data: seq<B>): R
    decreases |data|
  {
    if data == [] then r else Fold(c, c.step(r, data[0]), data[1..])
  }

  lemma {:induction false} FoldAppend<R, B>(c: Coder<R, B>, r: R, data: seq<B>, b: B)
    ensures Fold(c, r, data + [b]) == c.step(Fold(c, r, data), b)
    decreases |data|
  {
    if data == [] {
      assert data + [b] == [b] && [b][1..] == [];
    } else {
      assert (data + [b])[1..] == data[1..] + [b];
      FoldAppend(c, c.step(r, data[0]), data[1..], b);
    }
  }

  /** The bits of a message in the order the division reads them. */
  function MessageBits<R, B>(c: Coder<R, B>, data: seq<B>): Bits {
    if data == [] then [] else c.byteBits(data[0]) + MessageBits(c, data[1..])
  }

  lemma {:induction false} MessageLength<R(!new), B(!new)>(c: Coder<R, B>, data: seq<B>)
    requires Sound(c)
    ensures |MessageBits(c, data)| == 8 * |data|
  {
    if data != [] {
      MessageLength(c, data[1..]);
    }
  }

  lemma {:induction false} MessageConcat<R, B>(c: Coder<R, B>, a: seq<B>, b: seq<B>)
    ensures MessageBits(c, a + b) == MessageBits(c, a) + MessageBits(c, b)
  {
    if a == [] {
      assert a + b == b;
    } else {
      assert (a + b)[1..] == a[1..] + b;
      MessageConcat(c, a[1..], b);
    }
  }

  lemma {:induction false} MessageInjective<R(!new), B(!new)>(c: Coder<R, B>, a: seq<B>, b: seq<B>)
    requires Sound(c) && |a| == |b| && MessageBits(c, a) == MessageBits(c, b)
    ensures a == b
  {
    if a != [] {
      var x, y := MessageBits(c, a), MessageBits(c, b);
      assert x[..8] == c.byteBits(a[0]) && y[..8] == c.byteBits(b[0]);
      assert x[8..] == MessageBits(c, a[1..]) && y[8..] == MessageBits(c, b[1..]);
      MessageInjective(c, a[1..], b[1..]);
      assert a == [a[0]] + a[1..] && b == [b[0]] + b[1..];
    }
  }

  /** The table loop computes the remainder of bit-at-a-time division. */
  lemma {:induction false} FoldIsDivision<R(!new), B(!new)>(c: Coder<R, B>, r: R, data: seq<B>)
    requires Sound(c)
    ensures c.bits(Fold(c, r, data)) == Feed(c.poly, c.bits(r), MessageBits(c, data))
    decreases |data|
  {
    if data != [] {
      FoldIsDivision(c, c.step(r, data[0]), data[1..]);
      FeedConcat(c.poly, c.bits(r), c.byteBits(data[0]), MessageBits(c, data[1..]));
    }
  }

  /** Appending bytes drives the register to zero exactly when they spell it out. */
  lemma TrailerIffZero<R(!new), B(!new)>(c: Coder<R, B>, body: seq<B>, trailer: seq<B>, t: R)
    requires Sound(c) && c.bits(t) == MessageBits(c, trailer)
    ensures Fold(c, c.init, body) == t <==> Fold(c, c.init, body + trailer) == c.zero
  {
    var s, all := Fold(c, c.init, body), Fold(c, c.init, body + trailer);
    FoldIsDivision(c, c.init, body);
    FoldIsDivision(c, c.init, body + trailer);
    MessageConcat(c, body, trailer);
    FeedConcat(c.poly, c.bits(c.init), MessageBits(c, body), c.bits(t));
    assert c.bits(all) == Feed(c.poly, c.bits(s), c.bits(t));
    FeedToZero(c.poly, c.bits(s), c.bits(t));
  }

  /** The same for a frame whose last bytes, from position k on, are the trailer. */
  lemma SuffixIffZero<R(!new), B(!new)>(c: Coder<R, B>, m: seq<B>, k: nat, t: R)
    requires Sound(c) && k <= |m| && c.bits(t) == MessageBits(c, m[k..])
    ensures Fold(c, c.init, m[..k]) == t <==> Fold(c, c.init, m) == c.zero
  {
    assert m == m[..k] + m[k..];
    TrailerIffZero(c, m[..k], m[k..], t);
  }

  /** The two messages agree on every bit outside [start, stop). */
  ghost predicate AgreeOutside<R(!new), B(!new)>(c: Coder<R, B>, m: seq<B>, k: seq<B>, start: nat, stop: nat) {
    var x, y := MessageBits(c, m), MessageBits(c, k);
    |x| == |y| && start <= stop <= |x| && x[..start] == y[..start] && x[stop..] == y[stop..]
  }

  /** Any change confined to as many consecutive bits as the register holds, on
      any alignment, anywhere in a message of any length, changes the checksum. */
  lemma BurstChanges<R(!new), B(!new)>(c: Coder<R, B>, m: seq<B>, k: seq<B>, start: nat, stop: nat)
    requires Sound(c) && |m| == |k| && m != k
    requires AgreeOutside(c, m, k, start, stop) && stop - start <= |c.poly|
    ensures Fold(c, c.init, m) != Fold(c, c.init, k)
  {
    FoldIsDivision(c, c.init, m);
    FoldIsDivision(c, c.init, k);
    if MessageBits(c, m) == MessageBits(c, k) {
      MessageInjective(c, m, k);
    }
    WindowDetected(c.poly, c.bits(c.init), MessageBits(c, m), MessageBits(c, k), start, stop);
  }
}
