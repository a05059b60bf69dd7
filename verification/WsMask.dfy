/** WebSocket payload masking, as in 3rdparty/websocketpp/websocketpp/frame.hpp
    (section 5.3 of RFC 6455).  Machine words are bit strings, least significant
    bit first, so that shifts, truncation and or/xor mean what they mean on a
    machine of either word size (4 or 8 bytes) and either byte order.  The
    word-at-a-time and the streaming forms are proved equal to the byte loop. */
module WsMask {
  import opened BitStrings

  type Octet = b: Bits | |b| == 8 witness [false, false, false, false, false, false, false, false]
  type OctetKey = k: seq<Octet> | |k| == 4 witness [ZERO, ZERO, ZERO, ZERO]

  const ZERO: Octet := [false, false, false, false, false, false, false, false]

  /** sizeof(size_t) and the byte order. */
  datatype Machine = Machine(size: nat, little: bool)
  {
    predicate Valid() { size == 4 || size == 8 }

    // arithmetic modulo the word size, with a constant divisor in either case
    function Mod(i: nat): (r: nat)
      requires Valid()
      ensures r < size
    {
      if size == 8 then i % 8 else i % 4
    }

    function Words(length: nat): nat { if size == 8 then length / 8 else length / 4 }

    function Bytes(words: nat): nat { if size == 8 then 8 * words else 4 * words }
  }

  // ----- Bit operations -----

  function Or(a: Bits, b: Bits): (r: Bits)
    requires |a| == |b|
    ensures |r| == |a|
  {
    seq(|a|, i requires 0 <= i < |a| => a[i] || b[i])
  }

  function ShiftRight(w: Bits, n: nat): (r: Bits)
    requires n <= |w|
    ensures |r| == |w|
  {
    w[n..] + Clear(n)
  }

  function ShiftLeft(w: Bits, n: nat): (r: Bits)
    requires n <= |w|
    ensures |r| == |w|
  {
    Clear(n) + w[..|w| - n]
  }

  /** Words of four and of eight bytes, in either order. */
  lemma FourOrEight(little: bool)
    ensures Machine(4, little).Valid() && Machine(8, little).Valid()
  {
  }

  lemma XorTwice(a: Bits, b: Bits)
    requires |a| == |b|
    ensures Xor(Xor(a, b), b) == a
  {
  }

  // ----- Words as bytes of memory -----

  predicate IsWord(m: Machine, w: Bits) { |w| == 8 * m.size }

  /** The byte of w that starts at bit 8 s. */
  function OctetAt(w: Bits, s: nat): Octet
    requires 8 * s + 8 <= |w|
  {
    w[8 * s..8 * s + 8]
  }

  function Place(m: Machine, k: nat): nat
    requires k < m.size
  {
    if m.little then k else m.size - 1 - k
  }

  /** Octet k of w in memory order. */
  function ByteOf(m: Machine, w: Bits, k: nat): Octet
    requires IsWord(m, w) && k < m.size
  {
    OctetAt(w, Place(m, k))
  }

  /** The word that the given bytes of memory hold. */
  function Load(m: Machine, bytes: seq<Octet>): (w: Bits)
    requires |bytes| == m.size
    ensures IsWord(m, w)
  {
    seq(8 * m.size, i requires 0 <= i < 8 * m.size => bytes[Place(m, i / 8)][i % 8])
  }

  lemma LoadBytes(m: Machine, bytes: seq<Octet>, k: nat)
    requires |bytes| == m.size && k < m.size
    ensures ByteOf(m, Load(m, bytes), k) == bytes[k]
  {
    var s := Place(m, k);
    forall j | 0 <= j < 8 ensures ByteOf(m, Load(m, bytes), k)[j] == bytes[k][j] {
      assert (8 * s + j) / 8 == s && (8 * s + j) % 8 == j;
    }
  }

  lemma ByteOfXor(m: Machine, a: Bits, b: Bits, k: nat)
    requires IsWord(m, a) && IsWord(m, b) && k < m.size
    ensures ByteOf(m, Xor(a, b), k) == Xor(ByteOf(m, a, k), ByteOf(m, b, k))
  {
  }

  // ----- Positions modulo the word size -----

  lemma SameSlot(a: nat, b: nat, offset: nat)
    requires a % 4 == b % 4
    ensures (offset + a) % 4 == (offset + b) % 4
  {
  }

  lemma EightIsTwiceFour(n: nat)
    ensures n % 8 % 4 == n % 4
  {
    var q, r := n / 8, n % 8;
    assert n == 8 * q + r;
    if r < 4 { assert n == 4 * (2 * q) + r; } else { assert n == 4 * (2 * q + 1) + (r - 4); }
  }

  lemma ModuloChunk(m: Machine, form: Form, length: nat, k: nat)
    requires m.Valid()
    ensures var n := if form == ByWord then m.Mod(length) else length % 4;
            n < m.size && (n + k) % 4 == (length + k) % 4
  {
    var n := if form == ByWord then m.Mod(length) else length % 4;
    EightIsTwiceFour(length);
    SameSlot(n, length, k);
    assert n + k == k + n && length + k == k + length;
  }

  lemma ModuloWord(m: Machine, offset: nat, i: nat)
    requires m.Valid()
    ensures (offset + m.Mod(i)) % 4 == (offset + i) % 4
  {
    EightIsTwiceFour(i);
    SameSlot(m.Mod(i), i, offset);
  }

  lemma WordSpan(m: Machine, i: nat, j: nat)
    requires m.Valid() && m.Bytes(i) <= j < m.Bytes(i) + m.size
    ensures m.Mod(j) == j - m.Bytes(i)
  {
  }

  lemma WordCount(m: Machine, length: nat)
    requires m.Valid()
    ensures m.Bytes(m.Words(length)) <= length < m.Bytes(m.Words(length)) + m.size
    ensures length - m.Bytes(m.Words(length)) == m.Mod(length)
  {
  }

  // ----- Keys -----

  /** key.i for the four key bytes in memory. */
  function KeyInt(m: Machine, key: OctetKey): (r: Bits)
    ensures |r| == 32
  {
    Load(Machine(4, m.little), key)
  }

  function PrepareMaskingKey(m: Machine, key: OctetKey): (w: Bits)
    requires m.Valid()
    ensures IsWord(m, w)
  {
    var bits := KeyInt(m, key);
    if m.size == 8 then Or(ShiftLeft(bits + Clear(32), 32), bits + Clear(32)) else bits
  }

  /** The prepared key moved on by offset bytes of memory. */
  function CircshiftPreparedKey(m: Machine, w: Bits, offset: nat): (r: Bits)
    requires IsWord(m, w) && offset < m.size
    ensures IsWord(m, r)
  {
    if offset == 0 then w
    else if m.little then Or(ShiftRight(w, 8 * offset), ShiftLeft(w, 8 * (m.size - offset)))
    else Or(ShiftLeft(w, 8 * offset), ShiftRight(w, 8 * (m.size - offset)))
  }

  /** A rotation by n octets towards the low end. */
  function Rotated(w: Bits, size: nat, n: nat): (r: Bits)
    requires |w| == 8 * size && 0 < n < size
    ensures |r| == |w|
  {
    Or(ShiftRight(w, 8 * n), ShiftLeft(w, 8 * (size - n)))
  }

  lemma OctetOfRotation(w: Bits, size: nat, n: nat, s: nat)
    requires |w| == 8 * size && 0 < n < size && s < size
    ensures OctetAt(Rotated(w, size, n), s) == OctetAt(w, if s + n < size then s + n else s + n - size)
  {
    var r := Rotated(w, size, n);
    var t := if s + n < size then s + n else s + n - size;
    forall j | 0 <= j < 8 ensures OctetAt(r, s)[j] == OctetAt(w, t)[j] {
      assert OctetAt(r, s)[j] == r[8 * s + j] && OctetAt(w, t)[j] == w[8 * t + j];
    }
  }

  lemma OrCommutes(a: Bits, b: Bits)
    requires |a| == |b|
    ensures Or(a, b) == Or(b, a)
  {
  }

  lemma CircshiftIsRotation(m: Machine, w: Bits, offset: nat)
    requires IsWord(m, w) && 0 < offset < m.size
    ensures CircshiftPreparedKey(m, w, offset) == Rotated(w, m.size, if m.little then offset else m.size - offset)
  {
    if !m.little {
      OrCommutes(ShiftLeft(w, 8 * offset), ShiftRight(w, 8 * (m.size - offset)));
    }
  }

  /** The shift is a rotation of the bytes in memory, on either byte order. */
  lemma CircshiftRotates(m: Machine, w: Bits, offset: nat, k: nat)
    requires IsWord(m, w) && offset < m.size && k < m.size
    ensures ByteOf(m, CircshiftPreparedKey(m, w, offset), k) ==
            ByteOf(m, w, if k + offset < m.size then k + offset else k + offset - m.size)
  {
    if offset != 0 {
      CircshiftIsRotation(m, w, offset);
      OctetOfRotation(w, m.size, if m.little then offset else m.size - offset, Place(m, k));
    }
  }

  /** w holds the four key bytes over and over, starting offset bytes in. */
  ghost predicate Holds(m: Machine, w: Bits, key: OctetKey, offset: nat)
    requires IsWord(m, w)
  {
    forall k :: 0 <= k < m.size ==> ByteOf(m, w, k) == key[(offset + k) % 4]
  }

  lemma PreparedOctet(bits: Bits, s: nat, s': nat)
    requires |bits| == 32 && s < 8 && s' == if s < 4 then s else s - 4
    ensures OctetAt(Or(ShiftLeft(bits + Clear(32), 32), bits + Clear(32)), s) == OctetAt(bits, s')
  {
  }

  lemma PreparedHolds(m: Machine, key: OctetKey)
    requires m.Valid()
    ensures Holds(m, PrepareMaskingKey(m, key), key, 0)
  {
    var w, bits := PrepareMaskingKey(m, key), KeyInt(m, key);
    var m4 := Machine(4, m.little);
    forall k | 0 <= k < m.size ensures ByteOf(m, w, k) == key[(0 + k) % 4] {
      LoadBytes(m4, key, k % 4);
      var s, s' := Place(m, k), Place(m4, k % 4);
      assert s' == if s < 4 then s else s - 4;
      PreparedOctet(bits, s, s');
    }
  }

  lemma CircshiftHolds(m: Machine, w: Bits, key: OctetKey, offset: nat, n: nat)
    requires m.Valid() && IsWord(m, w) && Holds(m, w, key, offset) && n < m.size
    ensures Holds(m, CircshiftPreparedKey(m, w, n), key, offset + n)
  {
    var w' := CircshiftPreparedKey(m, w, n);
    forall k | 0 <= k < m.size ensures ByteOf(m, w', k) == key[(offset + n + k) % 4] {
      CircshiftRotates(m, w, n, k);
      HeldAround(m, w, key, offset, n, k);
    }
  }

  /** Going round the word keeps the position in the key. */
  lemma HeldAround(m: Machine, w: Bits, key: OctetKey, offset: nat, n: nat, k: nat)
    requires m.Valid() && IsWord(m, w) && Holds(m, w, key, offset) && n < m.size && k < m.size
    ensures ByteOf(m, w, if k + n < m.size then k + n else k + n - m.size) == key[(offset + n + k) % 4]
  {
    var k' := if k + n < m.size then k + n else k + n - m.size;
    assert ByteOf(m, w, k') == key[(offset + k') % 4];
    SameSlot(k', n + k, offset);
    assert offset + n + k == offset + (n + k);
  }

  // ----- The specification and the streaming forms as values -----

  /** What the byte loop computes. */
  function Masked(data: seq<Octet>, key: OctetKey, offset: nat): (r: seq<Octet>)
    ensures |r| == |data|
  {
    seq(|data|, i requires 0 <= i < |data| => Xor(data[i], key[(offset + i) % 4]))
  }

  lemma MaskTwice(data: seq<Octet>, key: OctetKey, offset: nat)
    ensures Masked(Masked(data, key, offset), key, offset) == data
  {
    forall i | 0 <= i < |data| ensures Masked(Masked(data, key, offset), key, offset)[i] == data[i] {
      XorTwice(data[i], key[(offset + i) % 4]);
    }
  }

  /** Output of word_mask_circ. */
  function WordCirc(m: Machine, data: seq<Octet>, w: Bits): (r: seq<Octet>)
    requires m.Valid() && IsWord(m, w)
    ensures |r| == |data|
  {
    seq(|data|, i requires 0 <= i < |data| => Xor(data[i], ByteOf(m, w, m.Mod(i))))
  }

  /** key.c[j] once the prepared key has been cut down to its low 32 bits. */
  function NarrowByte(m: Machine, w: Bits, j: nat): Octet
    requires m.Valid() && IsWord(m, w) && j < 4
  {
    ByteOf(Machine(4, m.little), w[..32], j)
  }

  /** Output of byte_mask_circ. */
  function ByteCirc(m: Machine, data: seq<Octet>, w: Bits): (r: seq<Octet>)
    requires m.Valid() && IsWord(m, w)
    ensures |r| == |data|
  {
    seq(|data|, i requires 0 <= i < |data| => Xor(data[i], NarrowByte(m, w, i % 4)))
  }

  datatype Form = ByWord | ByByte

  function MaskChunk(m: Machine, form: Form, data: seq<Octet>, w: Bits): seq<Octet>
    requires m.Valid() && IsWord(m, w)
  {
    if form == ByWord then WordCirc(m, data, w) else ByteCirc(m, data, w)
  }

  function NextKey(m: Machine, form: Form, length: nat, w: Bits): (r: Bits)
    requires m.Valid() && IsWord(m, w)
    ensures IsWord(m, r)
  {
    CircshiftPreparedKey(m, w, (if form == ByWord then m.Mod(length) else length % 4))
  }

  lemma NarrowIsByte(m: Machine, w: Bits, j: nat)
    requires m.Valid() && IsWord(m, w) && j < 4
    ensures NarrowByte(m, w, j) == ByteOf(m, w, if m.little then j else j + m.size - 4)
  {
    var s := Place(Machine(4, m.little), j);
    assert w[..32][8 * s..8 * s + 8] == w[8 * s..8 * s + 8];
  }

  lemma NarrowByteHolds(m: Machine, w: Bits, key: OctetKey, offset: nat, j: nat)
    requires m.Valid() && IsWord(m, w) && Holds(m, w, key, offset) && j < 4
    ensures NarrowByte(m, w, j) == key[(offset + j) % 4]
  {
    var k := if m.little then j else j + m.size - 4;
    NarrowIsByte(m, w, j);
    SameSlot(k, j, offset);
  }

  lemma WordCircIsMasked(m: Machine, data: seq<Octet>, w: Bits, key: OctetKey, offset: nat)
    requires m.Valid() && IsWord(m, w) && Holds(m, w, key, offset)
    ensures WordCirc(m, data, w) == Masked(data, key, offset)
  {
    forall i | 0 <= i < |data| ensures WordCirc(m, data, w)[i] == Masked(data, key, offset)[i] {
      ModuloWord(m, offset, i);
      assert ByteOf(m, w, m.Mod(i)) == key[(offset + m.Mod(i)) % 4];
    }
  }

  lemma ByteCircIsMasked(m: Machine, data: seq<Octet>, w: Bits, key: OctetKey, offset: nat)
    requires m.Valid() && IsWord(m, w) && Holds(m, w, key, offset)
    ensures ByteCirc(m, data, w) == Masked(data, key, offset)
  {
    forall i | 0 <= i < |data| ensures ByteCirc(m, data, w)[i] == Masked(data, key, offset)[i] {
      NarrowByteHolds(m, w, key, offset, i % 4);
      SameSlot(i % 4, i, offset);
    }
  }

  /** Each form masks correctly with a key that is offset bytes in. */
  lemma ChunkIsMasked(m: Machine, form: Form, data: seq<Octet>, w: Bits, key: OctetKey, offset: nat)
    requires m.Valid() && IsWord(m, w) && Holds(m, w, key, offset)
    ensures MaskChunk(m, form, data, w) == Masked(data, key, offset)
  {
    WordCircIsMasked(m, data, w, key, offset);
    ByteCircIsMasked(m, data, w, key, offset);
  }

  /** Each form returns the key for the byte after the chunk. */
  lemma NextKeyHolds(m: Machine, form: Form, length: nat, w: Bits, key: OctetKey, offset: nat)
    requires m.Valid() && IsWord(m, w) && Holds(m, w, key, offset)
    ensures Holds(m, NextKey(m, form, length, w), key, offset + length)
  {
    var n := (if form == ByWord then m.Mod(length) else length % 4);
    CircshiftHolds(m, w, key, offset, n);
    var w' := NextKey(m, form, length, w);
    forall k | 0 <= k < m.size ensures ByteOf(m, w', k) == key[(offset + length + k) % 4] {
      ModuloChunk(m, form, length, k);
      SameSlot(n + k, length + k, offset);
      assert ByteOf(m, w', k) == key[(offset + n + k) % 4];
      assert offset + n + k == offset + (n + k) && offset + length + k == offset + (length + k);
    }
  }

  function Concat(chunks: seq<seq<Octet>>): seq<Octet> {
    if chunks == [] then [] else chunks[0] + Concat(chunks[1..])
  }

  /** Masking a stream chunk by chunk, feeding each returned key to the next call. */
  function MaskStream(m: Machine, chunks: seq<seq<Octet>>, forms: seq<Form>, w: Bits): seq<Octet>
    requires m.Valid() && IsWord(m, w) && |forms| == |chunks|
    decreases |chunks|
  {
    if chunks == [] then []
    else MaskChunk(m, forms[0], chunks[0], w)
         + MaskStream(m, chunks[1..], forms[1..], NextKey(m, forms[0], |chunks[0]|, w))
  }

  lemma MaskedConcat(a: seq<Octet>, b: seq<Octet>, key: OctetKey, offset: nat)
    ensures Masked(a + b, key, offset) == Masked(a, key, offset) + Masked(b, key, offset + |a|)
  {
    var l, r := Masked(a + b, key, offset), Masked(a, key, offset) + Masked(b, key, offset + |a|);
    forall i | 0 <= i < |a| + |b| ensures l[i] == r[i] {
      if i >= |a| {
        assert offset + |a| + (i - |a|) == offset + i;
      }
    }
  }

  lemma {:induction false} StreamFrom(m: Machine, chunks: seq<seq<Octet>>, forms: seq<Form>, w: Bits,
                                      key: OctetKey, offset: nat)
    requires m.Valid() && IsWord(m, w) && |forms| == |chunks| && Holds(m, w, key, offset)
    ensures MaskStream(m, chunks, forms, w) == Masked(Concat(chunks), key, offset)
    decreases |chunks|
  {
    if chunks == [] {
      assert Masked([], key, offset) == [];
    } else {
      var c, w' := chunks[0], NextKey(m, forms[0], |chunks[0]|, w);
      ChunkIsMasked(m, forms[0], c, w, key, offset);
      NextKeyHolds(m, forms[0], |c|, w, key, offset);
      StreamFrom(m, chunks[1..], forms[1..], w', key, offset + |c|);
      MaskedConcat(c, Concat(chunks[1..]), key, offset);
    }
  }

  /** Main result: however a payload is split, and whichever form masks each
      piece, the stream equals one pass of the byte loop over the whole. */
  lemma StreamingEqualsByteLoop(m: Machine, chunks: seq<seq<Octet>>, forms: seq<Form>, key: OctetKey)
    requires m.Valid() && |forms| == |chunks|
    ensures MaskStream(m, chunks, forms, PrepareMaskingKey(m, key)) == Masked(Concat(chunks), key, 0)
  {
    PreparedHolds(m, key);
    StreamFrom(m, chunks, forms, PrepareMaskingKey(m, key), key, 0);
  }

  // ----- The source's buffers -----

  /** byte_mask; the two buffers may be the same. */
  method ByteMask(input: array<Octet>, output: array<Octet>, length: nat, key: OctetKey, keyOffset: nat)
    requires length <= input.Length && length <= output.Length
    modifies output
    ensures output[..length] == Masked(old(input[..length]), key, keyOffset)
    ensures output[length..] == old(output[length..])
  {
    var keyIndex := keyOffset % 4;
    var i := 0;
    while i < length
      invariant 0 <= i <= length && keyIndex == (keyOffset + i) % 4
      invariant forall j :: 0 <= j < i ==> output[j] == Xor(old(input[j]), key[(keyOffset + j) % 4])
      invariant forall j :: i <= j < input.Length ==> input[j] == old(input[j])
      invariant forall j :: i <= j < output.Length ==> output[j] == old(output[j])
    {
      output[i] := Xor(input[i], key[keyIndex]);
      SameSlot(keyIndex, keyOffset + i, 1);
      keyIndex := keyIndex + 1;
      keyIndex := keyIndex % 4;
      i := i + 1;
    }
  }

  /** output_word[i] = input_word[i] ^ key, where word i starts at byte at. */
  method XorWord(m: Machine, input: array<Octet>, output: array<Octet>, at: nat, key: Bits)
    requires at + m.size <= input.Length && at + m.size <= output.Length && IsWord(m, key)
    modifies output
    ensures forall j :: at <= j < at + m.size ==> output[j] == Xor(old(input[j]), ByteOf(m, key, j - at))
    ensures forall j :: 0 <= j < output.Length && !(at <= j < at + m.size) ==> output[j] == old(output[j])
  {
    var bytes := input[at..at + m.size];
    var w := Xor(Load(m, bytes), key);
    forall k | 0 <= k < m.size ensures ByteOf(m, w, k) == Xor(bytes[k], ByteOf(m, key, k)) {
      LoadBytes(m, bytes, k);
      ByteOfXor(m, Load(m, bytes), key, k);
    }
    forall j | at <= j < at + m.size {
      output[j] := ByteOf(m, w, j - at);
    }
    forall j | at <= j < at + m.size ensures output[j] == Xor(old(input[j]), ByteOf(m, key, j - at)) {
      assert bytes[j - at] == old(input[j]);
    }
  }

  /** The whole-word loop that both word forms start with. */
  method XorWords(m: Machine, input: array<Octet>, output: array<Octet>, n: nat, key: Bits)
    requires m.Valid() && IsWord(m, key) && m.Bytes(n) <= input.Length && m.Bytes(n) <= output.Length
    modifies output
    ensures forall j :: 0 <= j < m.Bytes(n) ==> output[j] == Xor(old(input[j]), ByteOf(m, key, m.Mod(j)))
    ensures forall j :: m.Bytes(n) <= j < output.Length ==> output[j] == old(output[j])
  {
    var i, at := 0, 0;
    while i < n
      invariant 0 <= i <= n && at == m.Bytes(i)
      invariant forall j :: 0 <= j < at ==> output[j] == Xor(old(input[j]), ByteOf(m, key, m.Mod(j)))
      invariant forall j :: at <= j < input.Length ==> input[j] == old(input[j])
      invariant forall j :: at <= j < output.Length ==> output[j] == old(output[j])
    {
      XorWord(m, input, output, at, key);
      forall j | at <= j < at + m.size ensures m.Mod(j) == j - at {
        WordSpan(m, i, j);
      }
      i, at := i + 1, at + m.size;
    }
  }

  method WordMaskExact(m: Machine, input: array<Octet>, output: array<Octet>, length: nat, key: OctetKey)
    requires m.Valid() && length <= input.Length && length <= output.Length
    modifies output
    ensures output[..length] == Masked(old(input[..length]), key, 0)
    ensures output[length..] == old(output[length..])
  {
    var w := PrepareMaskingKey(m, key);
    var n := m.Words(length);
    PreparedHolds(m, key);
    WordCount(m, length);
    XorWords(m, input, output, n, w);
    forall j | 0 <= j < m.Bytes(n) ensures output[j] == Xor(old(input[j]), key[j % 4]) {
      ModuloWord(m, 0, j);
      assert ByteOf(m, w, m.Mod(j)) == key[(0 + m.Mod(j)) % 4];
    }
    MaskTail(input, output, m.Bytes(n), length, key);
  }

  /** The bytes after the last whole word. */
  method MaskTail(input: array<Octet>, output: array<Octet>, start: nat, length: nat, key: OctetKey)
    requires start <= length <= input.Length && length <= output.Length
    modifies output
    ensures forall j :: start <= j < length ==> output[j] == Xor(old(input[j]), key[j % 4])
    ensures forall j :: 0 <= j < output.Length && !(start <= j < length) ==> output[j] == old(output[j])
  {
    var i := start;
    while i < length
      invariant start <= i <= length
      invariant forall j :: start <= j < i ==> output[j] == Xor(old(input[j]), key[j % 4])
      invariant forall j :: i <= j < input.Length ==> input[j] == old(input[j])
      invariant forall j :: 0 <= j < output.Length && !(start <= j < i) ==> output[j] == old(output[j])
    {
      output[i] := Xor(input[i], key[i % 4]);
      i := i + 1;
    }
  }

  method WordMaskCirc(m: Machine, input: array<Octet>, output: array<Octet>, length: nat, key: Bits)
    returns (next: Bits)
    requires m.Valid() && IsWord(m, key) && length <= input.Length && length <= output.Length
    modifies output
    ensures output[..length] == WordCirc(m, old(input[..length]), key)
    ensures output[length..] == old(output[length..])
    ensures next == NextKey(m, ByWord, length, key)
  {
    XorAll(m, input, output, length, key);
    CircElements(m, old(input[..length]), output[..length], key);
    var l := length - m.Bytes(m.Words(length));
    WordCount(m, length);
    next := CircshiftPreparedKey(m, key, l);
  }

  lemma CircElements(m: Machine, data: seq<Octet>, out: seq<Octet>, key: Bits)
    requires m.Valid() && IsWord(m, key) && |out| == |data|
    requires forall j :: 0 <= j < |data| ==> out[j] == Xor(data[j], ByteOf(m, key, m.Mod(j)))
    ensures out == WordCirc(m, data, key)
  {
  }

  /** The whole words and then the rest, byte by byte. */
  method XorAll(m: Machine, input: array<Octet>, output: array<Octet>, length: nat, key: Bits)
    requires m.Valid() && IsWord(m, key) && length <= input.Length && length <= output.Length
    modifies output
    ensures forall j :: 0 <= j < length ==> output[j] == Xor(old(input[j]), ByteOf(m, key, m.Mod(j)))
    ensures forall j :: length <= j < output.Length ==> output[j] == old(output[j])
  {
    var n := m.Words(length);
    var l := length - m.Bytes(n);
    WordCount(m, length);
    XorWords(m, input, output, n, key);
    var start := length - l;
    XorTail(m, input, output, start, l, key);
    forall j | start <= j < length ensures m.Mod(j) == j - start {
      WordSpan(m, n, j);
    }
  }

  /** The partial word at the end: key bytes straight from memory. */
  method XorTail(m: Machine, input: array<Octet>, output: array<Octet>, start: nat, l: nat, key: Bits)
    requires IsWord(m, key) && l <= m.size && start + l <= input.Length && start + l <= output.Length
    modifies output
    ensures forall j :: start <= j < start + l ==> output[j] == Xor(old(input[j]), ByteOf(m, key, j - start))
    ensures forall j :: 0 <= j < output.Length && !(start <= j < start + l) ==> output[j] == old(output[j])
  {
    var i := 0;
    while i < l
      invariant 0 <= i <= l
      invariant forall j :: start <= j < start + i ==> output[j] == Xor(old(input[j]), ByteOf(m, key, j - start))
      invariant forall j :: start + i <= j < input.Length ==> input[j] == old(input[j])
      invariant forall j :: 0 <= j < output.Length && !(start <= j < start + i) ==> output[j] == old(output[j])
    {
      output[start + i] := Xor(input[start + i], ByteOf(m, key, i));
      i := i + 1;
    }
  }

  method ByteMaskCirc(m: Machine, input: array<Octet>, output: array<Octet>, length: nat, key: Bits)
    returns (next: Bits)
    requires m.Valid() && IsWord(m, key) && length <= input.Length && length <= output.Length
    modifies output
    ensures output[..length] == ByteCirc(m, old(input[..length]), key)
    ensures output[length..] == old(output[length..])
    ensures next == NextKey(m, ByByte, length, key)
  {
    var i := 0;
    while i < length
      invariant 0 <= i <= length
      invariant forall j :: 0 <= j < i ==> output[j] == Xor(old(input[j]), NarrowByte(m, key, j % 4))
      invariant forall j :: i <= j < input.Length ==> input[j] == old(input[j])
      invariant forall j :: i <= j < output.Length ==> output[j] == old(output[j])
    {
      output[i] := Xor(input[i], NarrowByte(m, key, i % 4));
      i := i + 1;
    }
    next := CircshiftPreparedKey(m, key, length % 4);
  }
}
