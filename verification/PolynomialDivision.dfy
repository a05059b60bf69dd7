/** Division by a polynomial over GF(2), one message bit at a time, for a
    reflected register of any width.  This is the definition that the tables of
    tools/crc.cpp speed up. */
module PolynomialDivision {
  import opened BitStrings

  /** The last coefficient of a reflected polynomial is its constant term. */
  predicate Proper(poly: Bits) { |poly| > 0 && poly[|poly| - 1] }

  /** Shift right by one; subtract the polynomial when the bit that falls out
      differs from the message bit. */
  function Clock(poly: Bits, s: Bits, bit: bool): (r: Bits)
    requires |s| == |poly| > 0
    ensures |r| == |poly|
  {
    seq(|poly|, i requires 0 <= i < |poly| =>
      (i + 1 < |s| && s[i + 1]) != (s[0] != bit && poly[i]))
  }

  function Feed(poly: Bits, s: Bits, m: Bits): (r: Bits)
    requires |s| == |poly| > 0
    ensures |r| == |poly|
    decreases |m|
  {
    if m == [] then s else Feed(poly, Clock(poly, s, m[0]), m[1..])
  }

  lemma {:induction false} FeedConcat(poly: Bits, s: Bits, a: Bits, b: Bits)
    requires |s| == |poly| > 0
    ensures Feed(poly, s, a + b) == Feed(poly, Feed(poly, s, a), b)
    decreases |a|
  {
    if a == [] {
      assert a + b == b;
    } else {
      assert (a + b)[1..] == a[1..] + b;
      FeedConcat(poly, Clock(poly, s, a[0]), a[1..], b);
    }
  }

  /** Differences feed like messages. */
  lemma {:induction false} FeedLinear(poly: Bits, s: Bits, t: Bits, m: Bits, k: Bits)
    requires |s| == |t| == |poly| > 0 && |m| == |k|
    ensures Feed(poly, Xor(s, t), Xor(m, k)) == Xor(Feed(poly, s, m), Feed(poly, t, k))
    decreases |m|
  {
    if m != [] {
      assert Clock(poly, Xor(s, t), m[0] != k[0]) == Xor(Clock(poly, s, m[0]), Clock(poly, t, k[0]));
      assert Xor(m, k)[1..] == Xor(m[1..], k[1..]);
      FeedLinear(poly, Clock(poly, s, m[0]), Clock(poly, t, k[0]), m[1..], k[1..]);
    }
  }

  lemma ClockInjective(poly: Bits, s: Bits, t: Bits, bit: bool)
    requires Proper(poly) && |s| == |t| == |poly|
    requires Clock(poly, s, bit) == Clock(poly, t, bit)
    ensures s == t
  {
    var n := |poly|;
    assert Clock(poly, s, bit)[n - 1] == (s[0] != bit) && Clock(poly, t, bit)[n - 1] == (t[0] != bit);
    forall i | 0 < i < n ensures s[i] == t[i] {
      assert Clock(poly, s, bit)[i - 1] == Clock(poly, t, bit)[i - 1];
    }
  }

  /** Different registers stay different whatever is fed to both. */
  lemma {:induction false} FeedInjective(poly: Bits, s: Bits, t: Bits, m: Bits)
    requires Proper(poly) && |s| == |t| == |poly| && Feed(poly, s, m) == Feed(poly, t, m)
    ensures s == t
    decreases |m|
  {
    if m != [] {
      FeedInjective(poly, Clock(poly, s, m[0]), Clock(poly, t, m[0]), m[1..]);
      ClockInjective(poly, s, t, m[0]);
    }
  }

  /** A message no longer than the register can be added to the register first. */
  lemma {:induction false} Absorb(poly: Bits, s: Bits, m: Bits)
    requires |s| == |poly| > 0 && |m| <= |poly|
    ensures Feed(poly, s, m) == Feed(poly, Xor(s, m + Clear(|poly| - |m|)), Clear(|m|))
    decreases |m|
  {
    var n := |poly|;
    var x := Xor(s, m + Clear(n - |m|));
    if m == [] {
      assert x == s;
    } else {
      var s', m' := Clock(poly, s, m[0]), m[1..];
      Absorb(poly, s', m');
      assert Clear(|m|)[1..] == Clear(|m'|);
      assert Clock(poly, x, false) == Xor(s', m' + Clear(n - |m'|));
    }
  }

  lemma FeedOne(poly: Bits, s: Bits, bit: bool)
    requires |s| == |poly| > 0
    ensures Feed(poly, s, [bit]) == Clock(poly, s, bit)
  {
    assert [bit][1..] == [];
  }

  /** Feeding a register its own low bits just shifts it. */
  lemma {:induction false} FeedOwnBits(poly: Bits, s: Bits, k: nat)
    requires |s| == |poly| > 0 && k <= |poly|
    ensures Feed(poly, s, s[..k]) == s[k..] + Clear(k)
  {
    if k == 0 {
      assert s[..0] == [] && s[0..] + Clear(0) == s;
    } else {
      FeedOwnBits(poly, s, k - 1);
      var t := s[k - 1..] + Clear(k - 1);
      assert s[..k] == s[..k - 1] + [s[k - 1]];
      FeedConcat(poly, s, s[..k - 1], [s[k - 1]]);
      FeedOne(poly, t, s[k - 1]);
      var l, r := Clock(poly, t, s[k - 1]), s[k..] + Clear(k);
      forall i | 0 <= i < |poly| ensures l[i] == r[i] {
        assert t[0] == s[k - 1];
        assert l[i] == (i + 1 < |t| && t[i + 1]);
      }
    }
  }

  /** The register reaches zero exactly when it is fed its own contents. */
  lemma FeedToZero(poly: Bits, s: Bits, m: Bits)
    requires Proper(poly) && |s| == |m| == |poly|
    ensures Feed(poly, s, m) == Clear(|poly|) <==> m == s
  {
    var n := |poly|;
    FeedOwnBits(poly, s, n);
    assert s[..n] == s && s[n..] + Clear(n) == Clear(n);
    if Feed(poly, s, m) == Clear(n) {
      ShortMessagesDiffer(poly, s, m, s);
    }
  }

  /** Two different messages no longer than the register never collide. */
  lemma ShortMessagesDiffer(poly: Bits, s: Bits, m: Bits, k: Bits)
    requires Proper(poly) && |s| == |poly| && |m| == |k| <= |poly|
    requires Feed(poly, s, m) == Feed(poly, s, k)
    ensures m == k
  {
    var z := Clear(|poly| - |m|);
    Absorb(poly, s, m);
    Absorb(poly, s, k);
    FeedInjective(poly, Xor(s, m + z), Xor(s, k + z), Clear(|m|));
    forall i | 0 <= i < |m| ensures m[i] == k[i] {
      assert Xor(s, m + z)[i] == (s[i] != m[i]) && Xor(s, k + z)[i] == (s[i] != k[i]);
    }
  }

  lemma FeedThree(poly: Bits, s: Bits, a: Bits, m: Bits, b: Bits)
    requires |s| == |poly| > 0
    ensures Feed(poly, s, a + m + b) == Feed(poly, Feed(poly, Feed(poly, s, a), m), b)
  {
    FeedConcat(poly, s, a + m, b);
    FeedConcat(poly, s, a, m);
  }

  /** Main result: two messages of any length that differ, but only inside one
      window no longer than the register, leave different remainders. */
  lemma BurstDetected(poly: Bits, s: Bits, a: Bits, m: Bits, k: Bits, b: Bits)
    requires Proper(poly) && |s| == |poly| && |m| == |k| <= |poly| && m != k
    ensures Feed(poly, s, a + m + b) != Feed(poly, s, a + k + b)
  {
    var t := Feed(poly, s, a);
    FeedThree(poly, s, a, m, b);
    FeedThree(poly, s, a, k, b);
    if Feed(poly, s, a + m + b) == Feed(poly, s, a + k + b) {
      FeedInjective(poly, Feed(poly, t, m), Feed(poly, t, k), b);
      ShortMessagesDiffer(poly, t, m, k);
    }
  }

  lemma XorZeros(s: Bits)
    ensures Xor(s, Clear(|s|)) == s
  {
  }

  lemma XorCancels(a: Bits, b: Bits)
    requires |a| == |b|
    ensures Xor(a, Xor(a, b)) == b
  {
  }

  /** Splitting one table step off: the low bits of the register and the message
      meet only through their difference. */
  lemma FeedSplits(poly: Bits, s: Bits, m: Bits)
    requires |s| == |poly| > 0 && |m| <= |poly|
    ensures Feed(poly, s, m) ==
            Xor(s[|m|..] + Clear(|m|), Feed(poly, Clear(|poly|), Xor(s[..|m|], m)))
  {
    var low := s[..|m|];
    var e := Xor(low, m);
    XorZeros(s);
    XorCancels(low, m);
    FeedLinear(poly, s, Clear(|poly|), low, e);
    FeedOwnBits(poly, s, |m|);
  }

  lemma WholeSlices(s: Bits, f: Bits)
    requires |s| == |f|
    ensures s[..|s|] == s && Xor(s[|s|..] + Clear(|s|), f) == f
  {
    assert s[|s|..] == [];
  }

  /** When the message is as long as the register, only their difference counts. */
  lemma FeedWhole(poly: Bits, s: Bits, m: Bits)
    requires |s| == |m| == |poly| > 0
    ensures Feed(poly, s, m) == Feed(poly, Clear(|poly|), Xor(s, m))
  {
    FeedSplits(poly, s, m);
    WholeSlices(s, Feed(poly, Clear(|poly|), Xor(s, m)));
  }

  lemma Cut(x: Bits, start: nat, stop: nat)
    requires start <= stop <= |x|
    ensures x == x[..start] + x[start..stop] + x[stop..]
  {
  }

  /** BurstDetected for two bit strings that agree outside [start, stop). */
  lemma WindowDetected(poly: Bits, s: Bits, x: Bits, y: Bits, start: nat, stop: nat)
    requires Proper(poly) && |s| == |poly|
    requires |x| == |y| && start <= stop <= |x| && stop - start <= |poly| && x != y
    requires x[..start] == y[..start] && x[stop..] == y[stop..]
    ensures Feed(poly, s, x) != Feed(poly, s, y)
  {
    Cut(x, start, stop);
    Cut(y, start, stop);
    BurstDetected(poly, s, x[..start], x[start..stop], y[start..stop], x[stop..]);
  }
}
