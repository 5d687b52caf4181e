/** The message format: a 77-byte header and 16 body words, 333 bytes in all. */
module Messages {
  import opened Prelude
  import opened Bytes

  const VERSION: nat := 3
  const HEADER: nat := 77
  const ENCODED: nat := 333

  datatype Message = Message(
    version: nat,
    nonce: nat,
    origin: nat,
    sender: seq<nat>,
    destination: nat,
    recipient: seq<nat>,
    body: seq<nat>)

  type Keccak = seq<nat> -> Digest

  /** The ranges that the register types enforce. */
  ghost predicate WellTyped(m: Message) {
    && m.version < 256 && m.nonce < U32 && m.origin < U32 && m.destination < U32
    && |m.sender| == 32 && |m.recipient| == 32 && |m.body| == 16
    && forall i :: 0 <= i < 16 ==> m.body[i] < U128
  }

  /** A `u32`, most significant byte first. */
  function Word32(x: nat): (s: seq<nat>)
    ensures |s| == 4
  {
    [x / 0x100_0000, x / 0x1_0000 % 256, x / 0x100 % 256, x % 256]
  }

  lemma Word32Value(x: nat)
    ensures BigEndian(Word32(x), 256) == x
  {
    var a, b := x / 0x100, x / 0x1_0000;
    DivDiv(x, 0x100, 0x100);
    DivDiv(x, 0x1_0000, 0x100);
    var s := Word32(x);
    assert s[..3] == [s[0], s[1], s[2]] && [s[0], s[1], s[2]][..2] == [s[0], s[1]] && [s[0], s[1]][..1] == [s[0]];
    assert BigEndian([s[0]], 256) == s[0];
    assert BigEndian([s[0], s[1]], 256) == b;
    assert BigEndian([s[0], s[1], s[2]], 256) == a;
  }

  lemma Word32Injective(x: nat, y: nat)
    requires Word32(x) == Word32(y)
    ensures x == y
  {
    Word32Value(x);
    Word32Value(y);
  }

  /** The body words, each serialized least significant byte first. */
  function Words(body: seq<nat>): (s: seq<nat>)
    ensures |s| == 16 * |body|
  {
    if body == [] then [] else Digits(body[0], 16) + Words(body[1..])
  }

  function Header(m: Message): seq<nat> {
    [m.version] + Word32(m.nonce) + Word32(m.origin) + m.sender + Word32(m.destination) + m.recipient
  }

  function Encode(m: Message): seq<nat> {
    Header(m) + Words(m.body)
  }

  lemma EncodeLength(m: Message)
    requires WellTyped(m)
    ensures |Header(m)| == HEADER && |Encode(m)| == ENCODED
  {
  }

  lemma WordsCons(body: seq<nat>)
    requires body != []
    ensures Words(body) == Digits(body[0], 16) + Words(body[1..])
  {
    hide Digits;
  }

  /** Each word has its own 16 bytes. */
  lemma {:induction false} WordAt(body: seq<nat>, k: nat)
    requires k < |body|
    ensures Words(body)[16 * k..16 * k + 16] == Digits(body[k], 16)
  {
    hide Digits, Words;
    WordsCons(body);
    var head, tail := Digits(body[0], 16), Words(body[1..]);
    if k > 0 {
      WordAt(body[1..], k - 1);
      var i := 16 * (k - 1);
      assert (head + tail)[16 + i..16 + i + 16] == tail[i..i + 16];
    }
  }

  lemma HeaderInjective(m: Message, m': Message)
    requires WellTyped(m) && WellTyped(m') && Header(m) == Header(m')
    ensures m'.(body := m.body) == m
  {
    hide Word32;
    var h, h' := Header(m), Header(m');
    assert h[0] == m.version && h'[0] == m'.version;
    assert h[1..5] == Word32(m.nonce) && h'[1..5] == Word32(m'.nonce);
    assert h[5..9] == Word32(m.origin) && h'[5..9] == Word32(m'.origin);
    assert h[9..41] == m.sender && h'[9..41] == m'.sender;
    assert h[41..45] == Word32(m.destination) && h'[41..45] == Word32(m'.destination);
    assert h[45..77] == m.recipient && h'[45..77] == m'.recipient;
    Word32Injective(m.nonce, m'.nonce);
    Word32Injective(m.origin, m'.origin);
    Word32Injective(m.destination, m'.destination);
  }

  /**
  What a prefix of the encoding pins down: every header field, and each body word whose bytes
  it covers.
   */
  lemma PrefixDetermines(m: Message, m': Message, n: nat)
    requires WellTyped(m) && WellTyped(m') && HEADER <= n <= ENCODED
    requires |Encode(m)| == |Encode(m')| == ENCODED && Encode(m)[..n] == Encode(m')[..n]
    ensures m'.(body := m.body) == m
    ensures forall k :: 0 <= k < 16 && HEADER + 16 * k + 16 <= n ==> m.body[k] == m'.body[k]
  {
    hide Words, Header;
    EncodeLength(m);
    EncodeLength(m');
    assert Header(m) == Encode(m)[..n][..HEADER] == Encode(m')[..n][..HEADER] == Header(m');
    HeaderInjective(m, m');
    forall k | 0 <= k < 16 && HEADER + 16 * k + 16 <= n ensures m.body[k] == m'.body[k] {
      WordInPrefix(m, n, k);
      WordInPrefix(m', n, k);
      WordsAgree(m.body[k], m'.body[k]);
    }
  }

  /** Where the bytes of word `k` are in a prefix that covers it. */
  lemma WordInPrefix(m: Message, n: nat, k: nat)
    requires WellTyped(m) && n <= ENCODED && k < 16 && HEADER + 16 * k + 16 <= n && |Encode(m)| == ENCODED
    ensures Encode(m)[..n][HEADER + 16 * k..HEADER + 16 * k + 16] == Digits(m.body[k], 16)
  {
    hide Words, Digits, Header;
    EncodeLength(m);
    WordAt(m.body, k);
    SlicePrefix(Header(m), Words(m.body), n, 16 * k);
  }

  lemma SlicePrefix(h: seq<nat>, w: seq<nat>, n: nat, i: nat)
    requires |h| + i + 16 <= n <= |h| + |w|
    ensures (h + w)[..n][|h| + i..|h| + i + 16] == w[i..i + 16]
  {
  }

  lemma WordsAgree(x: nat, y: nat)
    requires x < U128 && y < U128 && Digits(x, 16) == Digits(y, 16)
    ensures x == y
  {
    PowAdd(256, 8, 8);
    assert Pow(256, 8) == U64;
    DigitsInjective(x, y, 16);
  }

  /** The encoding is injective. */
  lemma EncodeInjective(m: Message, m': Message)
    requires WellTyped(m) && WellTyped(m') && Encode(m) == Encode(m')
    ensures m == m'
  {
    EncodeLength(m);
    EncodeLength(m');
    PrefixDetermines(m, m', ENCODED);
    assert m.body == m'.body;
  }

  // ---------------------------------------------------------------------------
  // The identifier of a received message
  // ---------------------------------------------------------------------------

  /** The lengths `process` admits: whole body words, or one of three fixed formats. */
  predicate Admitted(length: nat) {
    HEADER <= length <= ENCODED
    && ((length - HEADER) % 16 == 0 || length == 206 || length == 149 || length == 167)
  }

  /**
  The select ladder of `process`: a hash for every candidate length and a chain of ternaries,
  innermost first, then the three special lengths.
   */
  method SelectId(keccak: Keccak, bytes: seq<nat>, length: nat) returns (id: Digest)
    requires |bytes| == ENCODED
    ensures Admitted(length) ==> id == keccak(bytes[..length])
  {
    id := (0, 0);
    for k := 17 downto 0
      invariant forall j :: k <= j < 17 && length == HEADER + 16 * j ==> id == keccak(bytes[..length])
    {
      var n := HEADER + 16 * k;
      var candidate := keccak(bytes[..n]);
      id := if length == n then candidate else id;
    }
    assert Admitted(length) && (length - HEADER) % 16 == 0 ==> id == keccak(bytes[..length]) by {
      if Admitted(length) && (length - HEADER) % 16 == 0 {
        assert length == HEADER + 16 * ((length - HEADER) / 16);
      }
    }
    id := if length == 167 then keccak(bytes[..167]) else id;
    id := if length == 149 then keccak(bytes[..149]) else id;
    id := if length == 206 then keccak(bytes[..206]) else id;
  }

  ghost predicate Injective(keccak: Keccak) {
    forall x: seq<nat>, y: seq<nat> :: keccak(x) == keccak(y) ==> x == y
  }

  /**
  Under a collision-free hash, a received message that carries the id of a dispatched one is
  that message, and was received at full length.
   */
  lemma IdIdentifies(keccak: Keccak, sent: Message, received: Message, length: nat)
    requires Injective(keccak) && WellTyped(sent) && WellTyped(received) && HEADER <= length <= ENCODED
    requires |Encode(received)| == ENCODED && keccak(Encode(received)[..length]) == keccak(Encode(sent))
    ensures length == ENCODED && received == sent
  {
    EncodeLength(sent);
    assert Encode(received)[..length] == Encode(sent);
    assert Encode(received)[..length] == Encode(received);
    EncodeInjective(received, sent);
  }

  /** Where each field is in the 333 bytes. */
  lemma EncodeLayout(m: Message, k: nat)
    requires WellTyped(m) && k < 16
    ensures var bytes := Encode(m);
            && |bytes| == 333 && bytes[0] == m.version
            && BigEndian(bytes[1..5], 256) == m.nonce && BigEndian(bytes[5..9], 256) == m.origin
            && bytes[9..41] == m.sender && BigEndian(bytes[41..45], 256) == m.destination
            && bytes[45..77] == m.recipient
            && LittleEndian(bytes[77 + 16 * k..93 + 16 * k], 256) == m.body[k]
  {
    hide Words, Word32, Digits, BigEndian, LittleEndian, Pow;
    EncodeLength(m);
    var h, bytes := Header(m), Encode(m);
    assert h[0] == m.version && h[1..5] == Word32(m.nonce) && h[5..9] == Word32(m.origin);
    assert h[9..41] == m.sender && h[41..45] == Word32(m.destination) && h[45..77] == m.recipient;
    assert bytes[..77] == h;
    assert bytes[1..5] == bytes[..77][1..5] && bytes[5..9] == bytes[..77][5..9] && bytes[9..41] == bytes[..77][9..41];
    assert bytes[41..45] == bytes[..77][41..45] && bytes[45..77] == bytes[..77][45..77];
    Word32Value(m.nonce);
    Word32Value(m.origin);
    Word32Value(m.destination);
    WordInPrefix(m, 333, k);
    assert bytes[..333] == bytes;
    WordValue(m.body[k]);
  }

  lemma WordValue(x: nat)
    requires x < U128
    ensures LittleEndian(Digits(x, 16), 256) == x
  {
    PowAdd(256, 8, 8);
    assert Pow(256, 8) == U64;
    DigitsRoundTrip(x, 16);
  }

  /** The lengths that `process` admits, one by one. */
  lemma AdmittedLengths(length: nat)
    ensures Admitted(length)
            <==> length in {77, 93, 109, 125, 141, 157, 173, 189, 205, 221, 237, 253, 269, 285, 301, 317, 333,
                            149, 167, 206}
  {
    if HEADER <= length <= ENCODED && (length - HEADER) % 16 == 0 {
      assert length == 77 + 16 * ((length - 77) / 16) && (length - 77) / 16 <= 16;
    }
  }
}
