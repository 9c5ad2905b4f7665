/** Encryption of a module's secure parameters (pkg/app/api/models/modules.go) over the value
    encryptor (pkg/crypto/dbencryptor.go) and the cipher layout (pkg/crypto/encryptor.go). */
module SecureConfig {
  import opened Basics
  import Base64

  const NONCE := 12 // the nonce size of AES-GCM

  type Nonce = b: Bytes | |b| == NONCE witness [0, 0, 0, 0, 0, 0, 0, 0, 0, 0, 0, 0]

  /** A decoded JSON value: null, a string, or anything else. */
  datatype Json = Null | Text(s: string) | Other(form: Bytes)

  /** The key and the library calls: AES-GCM with a given nonce, and the JSON codec. */
  datatype Tools = Tools(key: Bytes,
                         seal: (Nonce, Bytes) -> Bytes, unseal: (Nonce, Bytes) -> Option<Bytes>,
                         marshal: Json -> Option<Bytes>, unmarshal: Bytes -> Option<Json>)

  /** What is opened is what was sealed, and sealing makes nothing shorter; JSON reads back what it
      wrote, writes no text shorter than it is, and reads nothing from no bytes. */
  ghost predicate Lawful(t: Tools) {
    && (forall n, d :: t.unseal(n, t.seal(n, d)) == Some(d) && |t.seal(n, d)| >= |d|)
    && (forall v :: t.marshal(v).Some? ==> t.unmarshal(t.marshal(v).value) == Some(v))
    && (forall s :: t.marshal(Text(s)).Some? ==> |t.marshal(Text(s)).value| >= |s|)
    && t.unmarshal([]) == None
  }

  predicate KeyFits(t: Tools) {
    |t.key| == 16 || |t.key| == 24 || |t.key| == 32
  }

  // ---- pkg/crypto ----

  function Encrypt(t: Tools, data: Bytes, nonce: Nonce): Option<Bytes> {
    if !KeyFits(t) then None else Some(nonce + t.seal(nonce, data))
  }

  /** Data shorter than a nonce decrypts to nothing, without an error. */
  function Decrypt(t: Tools, data: Bytes): Option<Bytes> {
    if !KeyFits(t) then None
    else if |data| < NONCE then Some([])
    else t.unseal(data[..NONCE], data[NONCE..])
  }

  function Prefixed(prefix: string): string {
    if prefix == "" then "" else prefix + "."
  }

  function EncryptValue(t: Tools, prefix: string, b: Bytes, nonce: Nonce): Option<string> {
    match Encrypt(t, b, nonce)
    case None => None
    case Some(sealed) => Some(Prefixed(prefix) + Base64.Encode(sealed))
  }

  function GetCiphered(prefix: string, s: string): Option<Bytes> {
    var p := Prefixed(prefix);
    if p != "" && !(p <= s) then None else Base64.Decode(s[|p|..])
  }

  function DecryptValue(t: Tools, prefix: string, s: string): Option<Bytes> {
    match GetCiphered(prefix, s)
    case None => None
    case Some(ciphered) => Decrypt(t, ciphered)
  }

  predicate IsFormatMatch(prefix: string, s: string) {
    GetCiphered(prefix, s).Some?
  }

  /** A value that was encrypted is recognised and decrypts to what it was. */
  lemma ValueRoundTrip(t: Tools, prefix: string, b: Bytes, nonce: Nonce)
    requires Lawful(t) && KeyFits(t)
    ensures var s := EncryptValue(t, prefix, b, nonce);
            && s.Some? && s.value != "" && IsFormatMatch(prefix, s.value)
            && DecryptValue(t, prefix, s.value) == Some(b)
  {
    var sealed := nonce + t.seal(nonce, b);
    var p, s := Prefixed(prefix), Prefixed(prefix) + Base64.Encode(sealed);
    Base64.DecodeEncode(sealed);
    Base64.EncodeHasNoBreaks(sealed);
    assert s[|p|..] == Base64.Encode(sealed);
    assert sealed[..NONCE] == nonce && sealed[NONCE..] == t.seal(nonce, b);
  }

  // ---- pkg/app/api/models ----

  datatype Param = Param(serverOnly: bool, value: Json)

  type Config = map<string, Param>

  /** An empty configuration does not read as encrypted; nil values are passed over. */
  predicate IsConfigEncrypted(prefix: string, c: Config) {
    |c| != 0 && forall k <- c :: Recognised(prefix, c[k].value)
  }

  predicate Recognised(prefix: string, v: Json) {
    v.Null? || (v.Text? && v.s != "" && IsFormatMatch(prefix, v.s))
  }

  function EncryptParam(t: Tools, prefix: string, p: Param, nonce: Nonce): Option<Param> {
    match t.marshal(p.value)
    case None => None
    case Some(b) =>
      match EncryptValue(t, prefix, b, nonce)
      case None => None
      case Some(s) => Some(Param(p.serverOnly, Text(s)))
  }

  function DecryptParam(t: Tools, prefix: string, p: Param): Option<Param> {
    match p.value
    case Null => Some(p)
    case Other(_) => None
    case Text(s) =>
      match DecryptValue(t, prefix, s)
      case None => None
      case Some(b) =>
        match t.unmarshal(b)
        case None => None
        case Some(v) => Some(Param(p.serverOnly, v))
  }

  lemma ParamRoundTrip(t: Tools, prefix: string, p: Param, nonce: Nonce)
    requires Lawful(t) && EncryptParam(t, prefix, p, nonce).Some?
    ensures var e := EncryptParam(t, prefix, p, nonce).value;
            && e.value.Text? && Recognised(prefix, e.value) && e.serverOnly == p.serverOnly
            && DecryptParam(t, prefix, e) == Some(p)
  {
    ValueRoundTrip(t, prefix, t.marshal(p.value).value, nonce);
  }

  /** `after` is `before` with every parameter turned by `f`. */
  ghost predicate Turned(before: Config, after: Config, f: (string, Param) -> Option<Param>) {
    && after.Keys == before.Keys
    && forall k :: k in before ==> f(k, before[k]) == Some(after[k])
  }

  /** Some parameters are turned, the others are as they were. */
  ghost predicate PartlyTurned(before: Config, after: Config, f: (string, Param) -> Option<Param>) {
    && after.Keys == before.Keys
    && forall k :: k in before ==> after[k] == before[k] || f(k, before[k]) == Some(after[k])
  }

  /** Rewrites the parameters in the order of the map, up to the first failure. */
  method RewriteConfig(c: Config, f: (string, Param) -> Option<Param>) returns (r: Config, ok: bool)
    ensures PartlyTurned(c, r, f)
    ensures ok <==> forall k :: k in c ==> f(k, c[k]).Some?
    ensures ok ==> Turned(c, r, f)
  {
    r := c;
    var rest := c.Keys;
    while rest != {}
      invariant rest <= c.Keys == r.Keys
      invariant forall k :: k in rest ==> r[k] == c[k]
      invariant forall k :: k in c && k !in rest ==> f(k, c[k]) == Some(r[k])
      decreases |rest|
    {
      var k :| k in rest;
      match f(k, r[k])
      case None => return r, false;
      case Some(p) => r := r[k := p];
      rest := rest - {k};
    }
    return r, true;
  }

  function Encryptor(t: Tools, prefix: string, nonces: string -> Nonce): (string, Param) -> Option<Param> {
    (k, p) => EncryptParam(t, prefix, p, nonces(k))
  }

  function Decryptor(t: Tools, prefix: string): (string, Param) -> Option<Param> {
    (k, p) => DecryptParam(t, prefix, p)
  }

  /** The secure parameters of a module: the default ones and the current ones. */
  datatype Secrets = Secrets(def: Config, cur: Config)

  predicate ReadsEncrypted(prefix: string, s: Secrets) {
    IsConfigEncrypted(prefix, s.def) || IsConfigEncrypted(prefix, s.cur)
  }

  /** What a successful encryption does; n and n' give each parameter its nonce. */
  ghost predicate Encrypts(t: Tools, prefix: string, n: string -> Nonce, n': string -> Nonce, s: Secrets, s': Secrets) {
    if ReadsEncrypted(prefix, s) then s' == s
    else Turned(s.def, s'.def, Encryptor(t, prefix, n)) && Turned(s.cur, s'.cur, Encryptor(t, prefix, n'))
  }

  /** What a successful decryption does. */
  ghost predicate Decrypts(t: Tools, prefix: string, s: Secrets, s': Secrets) {
    if !ReadsEncrypted(prefix, s) then s' == s
    else Turned(s.def, s'.def, Decryptor(t, prefix)) && Turned(s.cur, s'.cur, Decryptor(t, prefix))
  }

  predicate CanDecrypt(t: Tools, prefix: string, c: Config) {
    forall k <- c :: DecryptParam(t, prefix, c[k]).Some?
  }

  ghost predicate AllRecognised(prefix: string, c: Config) {
    forall k :: k in c ==> Recognised(prefix, c[k].value)
  }

  /** After encryption every value is a recognised string, and decryption restores the original. */
  lemma EncryptedReads(t: Tools, prefix: string, before: Config, after: Config, nonces: string -> Nonce)
    requires Lawful(t) && Turned(before, after, Encryptor(t, prefix, nonces))
    ensures forall k :: k in after ==> after[k].value.Text? && Recognised(prefix, after[k].value)
    ensures |before| != 0 ==> IsConfigEncrypted(prefix, after)
    ensures forall k :: k in after ==> DecryptParam(t, prefix, after[k]) == Some(before[k])
  {
    forall k | k in after
      ensures after[k].value.Text? && Recognised(prefix, after[k].value)
      ensures DecryptParam(t, prefix, after[k]) == Some(before[k])
    {
      ParamRoundTrip(t, prefix, before[k], nonces(k));
    }
    assert |after.Keys| == |before.Keys|;
  }

  /** What was encrypted can be decrypted, and decryption restores every value and flag of both
      maps; in between every value is a recognised string. */
  lemma SecretsRoundTrip(t: Tools, prefix: string, n: string -> Nonce, n': string -> Nonce,
                         s: Secrets, e: Secrets, d: Secrets)
    requires Lawful(t) && !ReadsEncrypted(prefix, s)
    requires Encrypts(t, prefix, n, n', s, e)
    ensures CanDecrypt(t, prefix, e.def) && CanDecrypt(t, prefix, e.cur)
    ensures AllRecognised(prefix, e.def) && AllRecognised(prefix, e.cur)
    ensures Decrypts(t, prefix, e, d) ==> d == s
  {
    EncryptedReads(t, prefix, s.def, e.def, n);
    EncryptedReads(t, prefix, s.cur, e.cur, n');
    if Decrypts(t, prefix, e, d) {
      TurnedBack(t, prefix, s.def, e.def, d.def);
      TurnedBack(t, prefix, s.cur, e.cur, d.cur);
    }
  }

  lemma TurnedBack(t: Tools, prefix: string, before: Config, mid: Config, after: Config)
    requires mid.Keys == before.Keys && forall k :: k in mid ==> DecryptParam(t, prefix, mid[k]) == Some(before[k])
    requires (|mid| == 0 && after == mid) || Turned(mid, after, Decryptor(t, prefix))
    ensures after == before
  {
    if |mid| == 0 {
      assert |before.Keys| == 0;
    } else {
      forall k | k in before ensures after[k] == before[k] {
        assert Decryptor(t, prefix)(k, mid[k]) == Some(after[k]);
      }
    }
  }

  /** No parameter is its own encryption: the encrypted text is longer. */
  lemma NeverItself(t: Tools, prefix: string, p: Param, nonce: Nonce)
    requires Lawful(t)
    ensures EncryptParam(t, prefix, p, nonce) != Some(p)
  {
    if p.value.Text? && EncryptParam(t, prefix, p, nonce).Some? {
      var b := t.marshal(p.value).value;
      Base64.EncodeLonger(nonce + t.seal(nonce, b));
    }
  }

  /** A successful call has encrypted every parameter of both maps if and only if neither map read
      as encrypted before; else it has encrypted none. */
  lemma EncryptionTurnsIff(t: Tools, prefix: string, n: string -> Nonce, n': string -> Nonce, s: Secrets, e: Secrets)
    requires Lawful(t) && Encrypts(t, prefix, n, n', s, e)
    ensures Turned(s.def, e.def, Encryptor(t, prefix, n)) && Turned(s.cur, e.cur, Encryptor(t, prefix, n'))
            <==> !ReadsEncrypted(prefix, s)
  {
    if IsConfigEncrypted(prefix, s.def) {
      SomeKeyNotTurned(t, prefix, n, s.def);
    } else if IsConfigEncrypted(prefix, s.cur) {
      SomeKeyNotTurned(t, prefix, n', s.cur);
    }
  }

  lemma SomeKeyNotTurned(t: Tools, prefix: string, nonces: string -> Nonce, c: Config)
    requires Lawful(t) && |c| != 0
    ensures !Turned(c, c, Encryptor(t, prefix, nonces))
  {
    assert |c.Keys| != 0;
    var k :| k in c.Keys;
    NeverItself(t, prefix, c[k], nonces(k));
    assert Encryptor(t, prefix, nonces)(k, c[k]) == EncryptParam(t, prefix, c[k], nonces(k));
  }

  /** First input with which nothing is encrypted: a nil value alone makes its map read as
      encrypted. */
  lemma NilReadsEncrypted(t: Tools, prefix: string, n: string -> Nonce, n': string -> Nonce, e: Secrets)
    ensures var s := Secrets(map["secret" := Param(false, Other([]))], map["secret" := Param(false, Null)]);
            Encrypts(t, prefix, n, n', s, e) ==> e == s && !AllOpen(t, prefix, e)
  {
    var s := Secrets(map["secret" := Param(false, Other([]))], map["secret" := Param(false, Null)]);
    assert "secret" in s.def && "secret" in s.cur;
    assert IsConfigEncrypted(prefix, s.cur);
  }

  /** Second input: a text that looks like an encrypted one, while nobody encrypted it. */
  lemma TextReadsEncrypted(t: Tools, n: string -> Nonce, n': string -> Nonce, e: Secrets)
    requires Lawful(t)
    ensures var s := Secrets(map[], map["password" := Param(false, Text("soldr.abcd"))]);
            Encrypts(t, "soldr", n, n', s, e) ==> e == s && !AllOpen(t, "soldr", e)
  {
    var s := Secrets(map[], map["password" := Param(false, Text("soldr.abcd"))]);
    assert "soldr.abcd" == Prefixed("soldr") + "abcd";
    assert "soldr.abcd"[|Prefixed("soldr")|..] == "abcd";
    Base64.DecodeAbcd();
    assert "password" in s.cur;
    assert IsConfigEncrypted("soldr", s.cur);
  }

  /** The value opens under the key: it is an encrypted one. */
  predicate Opens(t: Tools, prefix: string, p: Param) {
    p.value.Text? && DecryptParam(t, prefix, p).Some?
  }

  ghost predicate AllOpen(t: Tools, prefix: string, s: Secrets) {
    && (forall k :: k in s.def ==> Opens(t, prefix, s.def[k]))
    && (forall k :: k in s.cur ==> Opens(t, prefix, s.cur[k]))
  }

  /** What the validation of a module demands of its secure parameters before they are encrypted:
      no value is nil, and if they read as encrypted, all of them can be decrypted. */
  predicate PassesValidation(t: Tools, prefix: string, s: Secrets) {
    && (forall k <- s.def :: !s.def[k].value.Null?)
    && (forall k <- s.cur :: !s.cur[k].value.Null?)
    && (ReadsEncrypted(prefix, s) ==> CanDecrypt(t, prefix, s.def) && CanDecrypt(t, prefix, s.cur))
  }

  /** For parameters without nil values, encryption leaves nothing in the clear, every value
      opening under the key, if and only if they pass validation. */
  lemma ProtectedIffValid(t: Tools, prefix: string, n: string -> Nonce, n': string -> Nonce, s: Secrets, e: Secrets)
    requires Lawful(t) && Encrypts(t, prefix, n, n', s, e)
    requires forall k :: k in s.def ==> !s.def[k].value.Null?
    requires forall k :: k in s.cur ==> !s.cur[k].value.Null?
    ensures AllOpen(t, prefix, e) <==> PassesValidation(t, prefix, s)
  {
    if !ReadsEncrypted(prefix, s) {
      EncryptedReads(t, prefix, s.def, e.def, n);
      EncryptedReads(t, prefix, s.cur, e.cur, n');
    }
  }

  /** With nil values: encryption leaves nothing in the clear if and only if the maps did not read
      as encrypted, or everything in them opened already. */
  lemma ProtectedIff(t: Tools, prefix: string, n: string -> Nonce, n': string -> Nonce, s: Secrets, e: Secrets)
    requires Lawful(t) && Encrypts(t, prefix, n, n', s, e)
    ensures AllOpen(t, prefix, e) <==> !ReadsEncrypted(prefix, s) || AllOpen(t, prefix, s)
  {
    if !ReadsEncrypted(prefix, s) {
      EncryptedReads(t, prefix, s.def, e.def, n);
      EncryptedReads(t, prefix, s.cur, e.cur, n');
    }
  }

  /** Validation decrypts encrypted parameters, looks at them and encrypts them again: they come out
      encrypted, and still decrypt to what they were. */
  lemma ValidationKeepsSecrets(t: Tools, prefix: string, n: string -> Nonce, n': string -> Nonce,
                               m: string -> Nonce, m': string -> Nonce,
                               s: Secrets, e: Secrets, d: Secrets, e': Secrets, d': Secrets)
    requires Lawful(t) && !ReadsEncrypted(prefix, s)
    requires Encrypts(t, prefix, n, n', s, e) && Decrypts(t, prefix, e, d) && Encrypts(t, prefix, m, m', d, e')
    ensures d == s && AllOpen(t, prefix, e')
    ensures Decrypts(t, prefix, e', d') ==> d' == s
  {
    SecretsRoundTrip(t, prefix, n, n', s, e, d);
    SecretsRoundTrip(t, prefix, m, m', s, e', d');
    ProtectedIff(t, prefix, m, m', s, e');
  }

  /** Encrypting once more changes nothing. */
  lemma EncryptionIdempotent(t: Tools, prefix: string, n: string -> Nonce, n': string -> Nonce,
                             s: Secrets, e: Secrets, e': Secrets)
    requires Lawful(t) && Encrypts(t, prefix, n, n', s, e) && Encrypts(t, prefix, n, n', e, e')
    ensures e' == e
  {
    if !ReadsEncrypted(prefix, s) {
      EncryptedReads(t, prefix, s.def, e.def, n);
      EncryptedReads(t, prefix, s.cur, e.cur, n');
      if !ReadsEncrypted(prefix, e) {
        assert |s.def.Keys| == 0 && |s.cur.Keys| == 0;
        assert e'.def == e.def && e'.cur == e.cur;
      }
    }
  }

  class ModuleA {
    const t: Tools
    const prefix: string
    var secureDefault: Config
    var secureCurrent: Config

    constructor (t: Tools, prefix: string, secureDefault: Config, secureCurrent: Config)
      ensures this.t == t && this.prefix == prefix && View() == Secrets(secureDefault, secureCurrent)
    {
      this.t, this.prefix := t, prefix;
      this.secureDefault, this.secureCurrent := secureDefault, secureCurrent;
    }

    ghost function View(): Secrets
      reads this
    {
      Secrets(secureDefault, secureCurrent)
    }

    /** Each parameter is encrypted under a nonce of its own. A failure may leave some parameters
        encrypted and others not. */
    method EncryptSecureParameters(n: string -> Nonce, n': string -> Nonce) returns (ok: bool)
      modifies this
      ensures ok ==> Encrypts(t, prefix, n, n', old(View()), View())
      ensures !ok ==> PartlyTurned(old(secureDefault), secureDefault, Encryptor(t, prefix, n))
                      && PartlyTurned(old(secureCurrent), secureCurrent, Encryptor(t, prefix, n'))
    {
      if IsConfigEncrypted(prefix, secureDefault) || IsConfigEncrypted(prefix, secureCurrent) {
        return true;
      }
      secureDefault, ok := RewriteConfig(secureDefault, Encryptor(t, prefix, n));
      if !ok {
        return false;
      }
      secureCurrent, ok := RewriteConfig(secureCurrent, Encryptor(t, prefix, n'));
    }

    method DecryptSecureParameters() returns (ok: bool)
      modifies this
      ensures ok == (!ReadsEncrypted(prefix, old(View()))
                     || (CanDecrypt(t, prefix, old(secureDefault)) && CanDecrypt(t, prefix, old(secureCurrent))))
      ensures ok ==> Decrypts(t, prefix, old(View()), View())
      ensures !ok ==> PartlyTurned(old(secureDefault), secureDefault, Decryptor(t, prefix))
                      && PartlyTurned(old(secureCurrent), secureCurrent, Decryptor(t, prefix))
    {
      if !(IsConfigEncrypted(prefix, secureDefault) || IsConfigEncrypted(prefix, secureCurrent)) {
        return true;
      }
      secureDefault, ok := RewriteConfig(secureDefault, Decryptor(t, prefix));
      if !ok {
        return false;
      }
      secureCurrent, ok := RewriteConfig(secureCurrent, Decryptor(t, prefix));
    }
  }
}
