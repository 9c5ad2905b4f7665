/** Agent tokens (pkg/vxproto/proto.go): 16 bytes enciphered in CBC mode and a checksum, in hex. */
module Token {
  import opened Basics

  datatype AgentType = VXAgent | Browser | External | VXServer | Aggregate

  function TypeName(t: AgentType): string {
    match t
    case VXAgent => "VXAgent"
    case Browser => "Browser"
    case External => "External"
    case VXServer => "VXServer"
    case Aggregate => "Aggregate"
  }

  type Block = b: Bytes | |b| == 8 witness [0, 0, 0, 0, 0, 0, 0, 0]
  type Word = b: Bytes | |b| == 4 witness [0, 0, 0, 0]

  /** The key of the hub, with its block cipher and checksum; their strength plays no part. */
  datatype Keyed = Keyed(key: Bytes, encipher: Block -> Block, decipher: Block -> Block,
                         crc: Bytes -> Word, bytesOf: string -> Bytes)

  ghost predicate CipherInverse(k: Keyed) {
    forall b :: k.decipher(k.encipher(b)) == b
  }

  predicate KeyFits(k: Keyed) {
    |k.key| == 24 // otherwise the Triple-DES cipher cannot be made
  }

  // ---- Hex ----

  function HexDigit(n: int): char
    requires 0 <= n < 16
  {
    "0123456789abcdef"[n]
  }

  predicate IsHexDigit(c: char) {
    '0' <= c <= '9' || 'a' <= c <= 'f' || 'A' <= c <= 'F'
  }

  function HexValue(c: char): (n: int)
    requires IsHexDigit(c)
    ensures 0 <= n < 16
  {
    if '0' <= c <= '9' then c as int - '0' as int
    else if 'a' <= c <= 'f' then c as int - 'a' as int + 10
    else c as int - 'A' as int + 10
  }

  function EncodeHex(b: Bytes): (s: string)
    ensures |s| == 2 * |b|
    ensures forall c :: c in s ==> '0' <= c <= '9' || 'a' <= c <= 'f'
  {
    if b == [] then "" else [HexDigit(b[0] / 16), HexDigit(b[0] % 16)] + EncodeHex(b[1..])
  }

  /** hex.DecodeString: an even number of hex digits, of either case. */
  function DecodeHex(s: string): (r: Option<Bytes>)
    ensures r.Some? ==> 2 * |r.value| == |s|
  {
    if s == "" then Some([])
    else if |s| < 2 || !IsHexDigit(s[0]) || !IsHexDigit(s[1]) then None
    else
      match DecodeHex(s[2..])
      case None => None
      case Some(rest) => Some([16 * HexValue(s[0]) + HexValue(s[1])] + rest)
  }

  lemma HexDigitValue(n: int)
    requires 0 <= n < 16
    ensures IsHexDigit(HexDigit(n)) && HexValue(HexDigit(n)) == n
  {
  }

  lemma DecodeByte(b: Byte, s: string, rest: Bytes)
    requires DecodeHex(s) == Some(rest)
    ensures DecodeHex([HexDigit(b / 16), HexDigit(b % 16)] + s) == Some([b] + rest)
  {
    HexDigitValue(b / 16);
    HexDigitValue(b % 16);
    assert ([HexDigit(b / 16), HexDigit(b % 16)] + s)[2..] == s;
  }

  lemma {:induction false} DecodeEncodeHex(b: Bytes)
    ensures DecodeHex(EncodeHex(b)) == Some(b)
  {
    if b != [] {
      DecodeEncodeHex(b[1..]);
      DecodeByte(b[0], EncodeHex(b[1..]), b[1..]);
      assert b == [b[0]] + b[1..];
    }
  }

  // ---- Cipher block chaining (section 6.2 of NIST SP 800-38A) ----

  function TwoTo(n: nat): nat {
    if n == 0 then 1 else 2 * TwoTo(n - 1)
  }

  /** Exclusive or of the n low bits. */
  function XorBits(a: nat, b: nat, n: nat): (r: nat)
    ensures r < TwoTo(n)
  {
    if n == 0 then 0 else (a + b) % 2 + 2 * XorBits(a / 2, b / 2, n - 1)
  }

  lemma Halves(bit: nat, rest: nat)
    requires bit < 2
    ensures (bit + 2 * rest) % 2 == bit && (bit + 2 * rest) / 2 == rest
  {
  }

  lemma ParityTwice(a: nat, b: nat, c: nat)
    requires c % 2 == (a + b) % 2
    ensures (c + b) % 2 == a % 2
  {
  }

  lemma {:induction false} XorBitsTwice(a: nat, b: nat, n: nat)
    requires a < TwoTo(n)
    ensures XorBits(XorBits(a, b, n), b, n) == a
  {
    if n > 0 {
      var c := XorBits(a, b, n);
      Halves((a + b) % 2, XorBits(a / 2, b / 2, n - 1));
      XorBitsTwice(a / 2, b / 2, n - 1);
      assert XorBits(c, b, n) == (c + b) % 2 + 2 * (a / 2);
      ParityTwice(a, b, c);
    }
  }

  lemma EightBits()
    ensures TwoTo(8) == 256
  {
    assert TwoTo(4) == 16;
  }

  function XorByte(a: Byte, b: Byte): Byte {
    EightBits();
    XorBits(a, b, 8)
  }

  function Xor(a: Block, b: Block): Block {
    seq(8, i requires 0 <= i < 8 => XorByte(a[i], b[i]))
  }

  lemma XorByteTwice(a: Byte, b: Byte)
    ensures XorByte(XorByte(a, b), b) == a
  {
    EightBits();
    XorBitsTwice(a, b, 8);
  }

  lemma XorTwice(a: Block, b: Block)
    ensures Xor(Xor(a, b), b) == a
  {
    forall i | 0 <= i < 8 ensures Xor(Xor(a, b), b)[i] == a[i] {
      XorByteTwice(a[i], b[i]);
    }
  }

  function EncryptCbc(k: Keyed, iv: Block, plain: Bytes): (r: Bytes)
    requires |plain| % 8 == 0
    ensures |r| == |plain|
    decreases |plain|
  {
    if plain == [] then []
    else
      var c := k.encipher(Xor(plain[..8], iv));
      c + EncryptCbc(k, c, plain[8..])
  }

  function DecryptCbc(k: Keyed, iv: Block, secret: Bytes): (r: Bytes)
    requires |secret| % 8 == 0
    ensures |r| == |secret|
    decreases |secret|
  {
    if secret == [] then []
    else Xor(k.decipher(secret[..8]), iv) + DecryptCbc(k, secret[..8], secret[8..])
  }

  lemma {:induction false} DecryptEncryptCbc(k: Keyed, iv: Block, plain: Bytes)
    requires |plain| % 8 == 0 && CipherInverse(k)
    ensures DecryptCbc(k, iv, EncryptCbc(k, iv, plain)) == plain
    decreases |plain|
  {
    if plain != [] {
      var c := k.encipher(Xor(plain[..8], iv));
      var secret := EncryptCbc(k, iv, plain);
      assert secret[..8] == c && secret[8..] == EncryptCbc(k, c, plain[8..]);
      XorTwice(plain[..8], iv);
      DecryptEncryptCbc(k, c, plain[8..]);
      assert plain == plain[..8] + plain[8..];
    }
  }

  // ---- The token ----

  function StateOf(k: Keyed, agentId: string, t: AgentType, rnd: Word): Word {
    k.crc(k.bytesOf(agentId + ":" + TypeName(t) + ":") + rnd)
  }

  /** One attempt: random part, four zero flags, state, checksum; enciphered; checksum again. */
  function TokenFor(k: Keyed, agentId: string, t: AgentType, rnd: Word): (token: string)
    requires KeyFits(k)
    ensures |token| == 40
  {
    var payload := rnd + [0, 0, 0, 0] + StateOf(k, agentId, t, rnd);
    var secret := EncryptCbc(k, k.key[..8], payload + k.crc(payload));
    EncodeHex(secret + k.crc(secret))
  }

  predicate HasImcFormat(token: string) {
    |token| == 40 && "ffffffff" <= token
  }

  function RandomPart(k: Keyed, agentId: string, t: AgentType, draw: Word): Word {
    if t == VXAgent || t == VXServer then k.crc(k.bytesOf(agentId)) else draw
  }

  /** The attempts go on until a token is not in the format of a module token. `draws` are the
      random words to come; without a result the program is still trying when they are used up. */
  function NewToken(k: Keyed, agentId: string, t: AgentType, draws: seq<Word>): Option<string>
    requires KeyFits(k)
  {
    if draws == [] then None
    else
      var token := TokenFor(k, agentId, t, RandomPart(k, agentId, t, draws[0]));
      if HasImcFormat(token) then NewToken(k, agentId, t, draws[1..]) else Some(token)
  }

  function TokenBytes(token: string): Option<Bytes> {
    if |token| != 40 then None else DecodeHex(token)
  }

  predicate HasTokenCrcValid(k: Keyed, token: string) {
    var bytes := TokenBytes(token);
    bytes.Some? && bytes.value[16..] == k.crc(bytes.value[..16])
  }

  predicate HasTokenValid(k: Keyed, token: string, agentId: string, t: AgentType) {
    var bytes := TokenBytes(token);
    && bytes.Some?
    && bytes.value[16..] == k.crc(bytes.value[..16])
    && KeyFits(k)
    && var plain := DecryptCbc(k, k.key[..8], bytes.value[..16]);
       plain[12..] == k.crc(plain[..12])
       && plain[8..12] == StateOf(k, agentId, t, plain[..4])
  }

  lemma TokenForValid(k: Keyed, agentId: string, t: AgentType, rnd: Word)
    requires KeyFits(k) && CipherInverse(k)
    ensures var token := TokenFor(k, agentId, t, rnd);
            && HasTokenValid(k, token, agentId, t) && HasTokenCrcValid(k, token)
            && forall c :: c in token ==> '0' <= c <= '9' || 'a' <= c <= 'f'
  {
    var state := StateOf(k, agentId, t, rnd);
    var payload := rnd + [0, 0, 0, 0] + state;
    var plain := payload + k.crc(payload);
    var secret := EncryptCbc(k, k.key[..8], plain);
    DecryptEncryptCbc(k, k.key[..8], plain);
    DecodeEncodeHex(secret + k.crc(secret));
    var bytes := secret + k.crc(secret);
    assert bytes[..16] == secret && bytes[16..] == k.crc(secret);
    assert plain[..12] == payload && plain[12..] == k.crc(payload);
    assert plain[8..12] == payload[8..] == state && plain[..4] == rnd;
  }

  /** Every token handed out is accepted for the agent and type it was made for. */
  lemma {:induction false} NewTokenValid(k: Keyed, agentId: string, t: AgentType, draws: seq<Word>)
    requires KeyFits(k) && CipherInverse(k) && NewToken(k, agentId, t, draws).Some?
    ensures var token := NewToken(k, agentId, t, draws).value;
            && |token| == 40 && (forall c :: c in token ==> '0' <= c <= '9' || 'a' <= c <= 'f')
            && !HasImcFormat(token)
            && HasTokenValid(k, token, agentId, t) && HasTokenCrcValid(k, token)
  {
    var rnd := RandomPart(k, agentId, t, draws[0]);
    if HasImcFormat(TokenFor(k, agentId, t, rnd)) {
      NewTokenValid(k, agentId, t, draws[1..]);
    } else {
      TokenForValid(k, agentId, t, rnd);
    }
  }

  /** Agents and servers get no fresh randomness on a second attempt: their token is made if and
      only if the first attempt succeeds, whatever is drawn. */
  lemma {:induction false} FixedRandomPart(k: Keyed, agentId: string, t: AgentType, draws: seq<Word>)
    requires KeyFits(k) && (t == VXAgent || t == VXServer) && draws != []
    ensures var token := TokenFor(k, agentId, t, k.crc(k.bytesOf(agentId)));
            NewToken(k, agentId, t, draws) == if HasImcFormat(token) then None else Some(token)
  {
    if |draws| > 1 && HasImcFormat(TokenFor(k, agentId, t, k.crc(k.bytesOf(agentId)))) {
      FixedRandomPart(k, agentId, t, draws[1..]);
    }
  }

  /** For the other types the first draw that gives a proper token decides. */
  lemma {:induction false} FirstGoodDraw(k: Keyed, agentId: string, t: AgentType, draws: seq<Word>)
    requires KeyFits(k) && t != VXAgent && t != VXServer
    ensures NewToken(k, agentId, t, draws).Some? <==>
            exists i :: 0 <= i < |draws| && !HasImcFormat(TokenFor(k, agentId, t, draws[i]))
  {
    if draws != [] {
      FirstGoodDraw(k, agentId, t, draws[1..]);
      if HasImcFormat(TokenFor(k, agentId, t, draws[0])) {
        assert forall i :: 1 <= i < |draws| ==> draws[i] == draws[1..][i - 1];
      }
    }
  }

  // ---- Which first attempts fail ----

  lemma HexDigitIsF(n: int)
    requires 0 <= n < 16
    ensures HexDigit(n) == 'f' <==> n == 15
  {
  }

  lemma ByteIsFF(b: Byte)
    ensures HexDigit(b / 16) == 'f' && HexDigit(b % 16) == 'f' <==> b == 255
  {
    HexDigitIsF(b / 16);
    HexDigitIsF(b % 16);
  }

  lemma {:induction false} HexAt(b: Bytes, i: nat)
    requires i < |b|
    ensures EncodeHex(b)[2 * i] == HexDigit(b[i] / 16) && EncodeHex(b)[2 * i + 1] == HexDigit(b[i] % 16)
  {
    if i > 0 {
      HexAt(b[1..], i - 1);
    }
  }

  /** Hex text begins with 2n times f if and only if the first n bytes are 0xff. */
  lemma BeginsWithFs(b: Bytes, n: nat)
    requires n <= |b|
    ensures (forall i :: 0 <= i < 2 * n ==> EncodeHex(b)[i] == 'f') <==> forall i :: 0 <= i < n ==> b[i] == 255
  {
    forall i | 0 <= i < n ensures PairOfFs(EncodeHex(b), i) <==> b[i] == 255 {
      HexAt(b, i);
      ByteIsFF(b[i]);
    }
    FsInPairs(EncodeHex(b), n);
  }

  predicate PairOfFs(text: string, i: nat) {
    2 * i + 1 < |text| && text[2 * i] == 'f' && text[2 * i + 1] == 'f'
  }

  lemma FsInPairs(text: string, n: nat)
    requires 2 * n <= |text|
    ensures (forall i :: 0 <= i < 2 * n ==> text[i] == 'f') <==> forall i :: 0 <= i < n ==> PairOfFs(text, i)
  {
    if forall i :: 0 <= i < n ==> PairOfFs(text, i) {
      forall j | 0 <= j < 2 * n ensures text[j] == 'f' {
        assert PairOfFs(text, j / 2);
      }
    }
  }

  /** An attempt is rejected if and only if the first enciphered block, which depends on the random
      part and the key alone, begins with four bytes 0xff. */
  lemma RejectedIff(k: Keyed, agentId: string, t: AgentType, rnd: Word)
    requires KeyFits(k)
    ensures HasImcFormat(TokenFor(k, agentId, t, rnd)) <==>
              forall i :: 0 <= i < 4 ==> k.encipher(Xor(rnd + [0, 0, 0, 0], k.key[..8]))[i] == 255
  {
    var payload := rnd + [0, 0, 0, 0] + StateOf(k, agentId, t, rnd);
    var plain := payload + k.crc(payload);
    var secret := EncryptCbc(k, k.key[..8], plain);
    var first := k.encipher(Xor(rnd + [0, 0, 0, 0], k.key[..8]));
    assert plain[..8] == rnd + [0, 0, 0, 0];
    assert secret[..8] == first;
    var bytes := secret + k.crc(secret);
    assert TokenFor(k, agentId, t, rnd) == EncodeHex(bytes);
    forall i | 0 <= i < 4 ensures bytes[i] == first[i] {
      assert secret[..8][i] == first[i];
    }
    BeginsWithFs(bytes, 4);
    ImcPrefix(EncodeHex(bytes));
    assert (forall i :: 0 <= i < 4 ==> bytes[i] == 255) <==> forall i :: 0 <= i < 4 ==> first[i] == 255;
  }

  lemma ImcPrefix(token: string)
    requires |token| == 40
    ensures HasImcFormat(token) <==> forall i :: 0 <= i < 8 ==> token[i] == 'f'
  {
    assert forall i :: 0 <= i < 8 ==> "ffffffff"[i] == 'f';
    if forall i :: 0 <= i < 8 ==> token[i] == 'f' {
      assert token[..8] == "ffffffff";
    }
  }

  /** A key, a cipher and a checksum for which no agent ever gets a token: the cipher leaves blocks
      as they are and the checksum of every text is 0xffffffff. */
  const UNLUCKY := Keyed(seq(24, _ => 0), b => b, b => b, _ => [255, 255, 255, 255], _ => [])

  lemma NoTokenEver(agentId: string, draws: seq<Word>)
    ensures CipherInverse(UNLUCKY) && KeyFits(UNLUCKY) && NewToken(UNLUCKY, agentId, VXAgent, draws) == None
  {
    var rnd: Word := [255, 255, 255, 255];
    RejectedIff(UNLUCKY, agentId, VXAgent, rnd);
    var zero: Block := UNLUCKY.key[..8];
    var first: Block := rnd + [0, 0, 0, 0];
    forall i | 0 <= i < 4 ensures UNLUCKY.encipher(Xor(first, zero))[i] == 255 {
      XorZero(255);
    }
    if draws != [] {
      FixedRandomPart(UNLUCKY, agentId, VXAgent, draws);
    }
  }

  lemma XorZero(a: Byte)
    ensures XorByte(a, 0) == a
  {
    EightBits();
    XorBitsZero(a, 8);
  }

  lemma {:induction false} XorBitsZero(a: nat, n: nat)
    requires a < TwoTo(n)
    ensures XorBits(a, 0, n) == a
  {
    if n > 0 {
      XorBitsZero(a / 2, n - 1);
    }
  }
}
