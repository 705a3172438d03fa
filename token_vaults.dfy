/** The in-memory token vault: PANs and CVVs are replaced by opaque tokens,
    and the vault keeps, under each token, the value sealed with a 32-character
    key and a fresh initialisation vector. The block cipher itself is replaced
    by a reversible stand-in with the same interface (key, IV, text). */
module TokenVaults {
  import opened Common
  import opened Guids

  const DefaultEncryptionKey: string := "default-dev-key-32-chars-min!!!"

  /** PadRight(32) then Substring(0, 32): exactly 32 characters. */
  function NormalizeKey(key: string): (n: string)
    ensures |n| == 32
    ensures |key| >= 32 ==> n == key[..32]
    ensures |key| < 32 ==> n[..|key|] == key && forall i :: |key| <= i < 32 ==> n[i] == ' '
  {
    if |key| >= 32 then key[..32] else key + seq(32 - |key|, _ => ' ')
  }

  /** The default key is one character short and gains a single trailing space. */
  lemma DefaultKeyNormalized()
    ensures |DefaultEncryptionKey| == 31
    ensures NormalizeKey(DefaultEncryptionKey) == DefaultEncryptionKey + " "
  {
  }

  /** The number of bytes Encoding.UTF8 uses for a character. */
  function Utf8Width(c: char): (n: nat)
    ensures 1 <= n <= 4
    ensures n == 1 <==> c as int < 0x80
  {
    if c as int < 0x80 then 1 else if c as int < 0x800 then 2 else if c as int < 0x10000 then 3 else 4
  }

  function Utf8Length(s: string): nat {
    if s == [] then 0 else Utf8Width(s[0]) + Utf8Length(s[1..])
  }

  predicate IsAscii(s: string) {
    forall i :: 0 <= i < |s| ==> s[i] as int < 0x80
  }

  /** A text takes one byte per character exactly when it is ASCII, more otherwise. */
  lemma {:induction false} Utf8LengthAscii(s: string)
    ensures Utf8Length(s) >= |s|
    ensures Utf8Length(s) == |s| <==> IsAscii(s)
  {
    if s != [] {
      Utf8LengthAscii(s[1..]);
      if IsAscii(s[1..]) && s[0] as int < 0x80 {
        forall i | 0 <= i < |s| ensures s[i] as int < 0x80 {
          if i > 0 { assert s[i] == s[1..][i - 1]; }
        }
      }
      if IsAscii(s) {
        forall i | 0 <= i < |s[1..]| ensures s[1..][i] as int < 0x80 {
          assert s[1..][i] == s[i + 1];
        }
      }
    }
  }

  /** AES accepts 16-, 24- and 32-byte keys; a 32-character key is accepted exactly
      when it is ASCII. */
  predicate KeyInstallable(key: string) {
    var n := Utf8Length(key);
    n == 16 || n == 24 || n == 32
  }

  lemma NormalizedKeyInstallable(key: string)
    ensures KeyInstallable(NormalizeKey(key)) <==> IsAscii(NormalizeKey(key))
  {
    Utf8LengthAscii(NormalizeKey(key));
  }

  /** A 16-byte initialisation vector. */
  type Iv = s: seq<bv8> | |s| == 16 witness seq(16, _ => 0 as bv8)

  /** Aes.GenerateIV as an oracle: the vectors it will produce, in order. */
  class IvSource {
    const ivs: nat -> Iv
    var used: nat

    constructor (ivs: nat -> Iv)
      ensures this.ivs == ivs && used == 0
    {
      this.ivs := ivs;
      used := 0;
    }

    method GenerateIV() returns (iv: Iv)
      modifies this
      ensures iv == ivs(old(used)) && used == old(used) + 1
    {
      iv := ivs(used);
      used := used + 1;
    }
  }

  /** What the vault keeps: the IV, followed by the ciphertext. */
  datatype Sealed = Sealed(iv: seq<bv8>, body: seq<int>)

  function Mask(key: string, iv: Iv, k: nat): int
    requires |key| == 32
  {
    key[k % 32] as int + iv[k % 16] as int
  }

  predicate IsScalar(n: int) {
    (0 <= n < 0xD800) || (0xE000 <= n < 0x11_0000)
  }

  /** The stand-in cipher: the character at position k shifted by a key- and
      IV-dependent amount. */
  function Shift(key: string, iv: Iv, plaintext: string, k: nat): (body: seq<int>)
    requires |key| == 32
    ensures |body| == |plaintext|
  {
    if plaintext == [] then []
    else [plaintext[0] as int + Mask(key, iv, k)] + Shift(key, iv, plaintext[1..], k + 1)
  }

  function Unshift(key: string, iv: Iv, body: seq<int>, k: nat): Option<string>
    requires |key| == 32
  {
    if body == [] then Some([])
    else
      var c := body[0] - Mask(key, iv, k);
      if !IsScalar(c) then None
      else match Unshift(key, iv, body[1..], k + 1)
        case None => None
        case Some(rest) => Some([c as char] + rest)
  }

  lemma {:induction false} UnshiftShift(key: string, iv: Iv, plaintext: string, k: nat)
    requires |key| == 32
    ensures Unshift(key, iv, Shift(key, iv, plaintext, k), k) == Some(plaintext)
    decreases |plaintext|
  {
    if plaintext != [] {
      var body := Shift(key, iv, plaintext, k);
      assert body[1..] == Shift(key, iv, plaintext[1..], k + 1);
      assert body[0] - Mask(key, iv, k) == plaintext[0] as int;
      UnshiftShift(key, iv, plaintext[1..], k + 1);
      assert [plaintext[0]] + plaintext[1..] == plaintext;
    }
  }

  function Encrypt(key: string, iv: Iv, plaintext: string): (s: Sealed)
    requires |key| == 32
    ensures s.iv == iv && |s.body| == |plaintext|
  {
    Sealed(iv, Shift(key, iv, plaintext, 0))
  }

  /** Reads the IV back from the front of the blob and undoes the shift; None for a
      blob that no plaintext produces. */
  function Decrypt(key: string, s: Sealed): (r: Option<string>)
    requires |key| == 32
  {
    if |s.iv| != 16 then None else Unshift(key, s.iv, s.body, 0)
  }

  /** Opening what was sealed with the same key gives the plaintext back. */
  lemma DecryptEncrypt(key: string, iv: Iv, plaintext: string)
    requires |key| == 32
    ensures Decrypt(key, Encrypt(key, iv, plaintext)) == Some(plaintext)
  {
    UnshiftShift(key, iv, plaintext, 0);
  }

  /** $"tok_{prefix}_{Guid.NewGuid():N}". */
  function Token(prefix: string, g: Guid): string {
    "tok_" + prefix + "_" + FormatN(g)
  }

  /** Tokens of different kinds never collide, and tokens of one kind are equal only
      for the same identifier. */
  lemma TokenInjective(p1: string, p2: string, g1: Guid, g2: Guid)
    requires p1 == "pan" || p1 == "cvv"
    requires p2 == "pan" || p2 == "cvv"
    ensures Token(p1, g1) == Token(p2, g2) ==> p1 == p2 && g1 == g2
  {
    if Token(p1, g1) == Token(p2, g2) {
      assert Token(p1, g1)[4] == p1[0] && Token(p2, g2)[4] == p2[0];
      assert Token(p1, g1)[8..] == FormatN(g1) && Token(p2, g2)[8..] == FormatN(g2);
      FormatNInjective(g1, g2);
    }
  }

  /** A token has the form tok_pan_ or tok_cvv_ followed by 32 lower-case hex digits. */
  lemma TokenShape(prefix: string, g: Guid)
    requires prefix == "pan" || prefix == "cvv"
    ensures var t := Token(prefix, g);
            |t| == 40 && t[..8] == "tok_" + prefix + "_" && IsHexString(t[8..])
  {
  }

  /** Every token held was built from one of the first n identifiers handed out. */
  ghost predicate TokensIssuedBefore(tokens: set<string>, values: nat -> Guid, n: nat) {
    forall t :: t in tokens ==>
      exists i :: 0 <= i < n && (t == Token("pan", values(i)) || t == Token("cvv", values(i)))
  }

  /** With an identifier source that never repeats itself, the next token is new. */
  lemma NextTokenIsFresh(tokens: set<string>, values: nat -> Guid, n: nat, prefix: string)
    requires Unique(values) && TokensIssuedBefore(tokens, values, n)
    requires prefix == "pan" || prefix == "cvv"
    ensures Token(prefix, values(n)) !in tokens
    ensures TokensIssuedBefore(tokens + {Token(prefix, values(n))}, values, n + 1)
  {
    if Token(prefix, values(n)) in tokens {
      var i :| 0 <= i < n && (Token(prefix, values(n)) == Token("pan", values(i))
                              || Token(prefix, values(n)) == Token("cvv", values(i)));
      TokenInjective(prefix, "pan", values(n), values(i));
      TokenInjective(prefix, "cvv", values(n), values(i));
    }
  }

  /** The exception the vault's constructor throws for a key, if any. */
  function VaultKeyError(encryptionKey: string): (e: Option<Error>)
    ensures e.None? <==> encryptionKey != ""
  {
    if encryptionKey == "" then Some(Argument("Encryption key não pode estar vazio")) else None
  }

  /** ArmazenarPan's check: not blank and 16 UTF-16 code units long. */
  function PanError(pan: string): (e: Option<Error>)
    ensures e.None? <==> !IsBlank(pan) && Utf16Length(pan) == 16
    ensures IsBmp(pan) ==> (e.None? <==> !IsBlank(pan) && |pan| == 16)
  {
    Utf16LengthBmp(pan);
    if IsBlank(pan) || Utf16Length(pan) != 16 then Some(Argument("PAN deve ter exatamente 16 dígitos")) else None
  }

  /** ArmazenarCvv's check: not blank and 3 or 4 UTF-16 code units long. */
  function CvvError(cvv: string): (e: Option<Error>)
    ensures e.None? <==> !IsBlank(cvv) && (Utf16Length(cvv) == 3 || Utf16Length(cvv) == 4)
    ensures IsBmp(cvv) ==> (e.None? <==> !IsBlank(cvv) && (|cvv| == 3 || |cvv| == 4))
  {
    Utf16LengthBmp(cvv);
    if IsBlank(cvv) || (Utf16Length(cvv) != 3 && Utf16Length(cvv) != 4) then Some(Argument("CVV deve ter 3 ou 4 dígitos")) else None
  }

  /** A character outside the Basic Multilingual Plane counts twice. */
  lemma {:induction false} AstralUtf16Length(s: string)
    requires forall i :: 0 <= i < |s| ==> s[i] as int > 0xFFFF
    ensures Utf16Length(s) == 2 * |s|
  {
    if s != [] {
      AstralUtf16Length(s[..|s| - 1]);
    }
  }

  /** Eight characters outside the Basic Multilingual Plane make a PAN of 16
      code units, which the vault accepts; two make an accepted CVV. */
  lemma AstralTextAccepted()
    ensures PanError(seq(8, _ => '\U{1F600}')).None?
    ensures CvvError(seq(2, _ => '\U{1F600}')).None?
  {
    var s := seq(8, _ => '\U{1F600}');
    var t := seq(2, _ => '\U{1F600}');
    AstralUtf16Length(s);
    AstralUtf16Length(t);
    assert !IsWhiteSpace(s[0]) && !IsWhiteSpace(t[0]);
  }

  class InMemoryTokenVault {
    var store: map<string, Sealed>
    const encryptionKey: string
    const guids: GuidSource
    const ivs: IvSource

    /** The vault with its key normalised to 32 characters and nothing stored. */
    constructor (encryptionKey: string, guids: GuidSource, ivs: IvSource)
      requires VaultKeyError(encryptionKey).None?
      ensures this.encryptionKey == NormalizeKey(encryptionKey) && store == map[]
      ensures this.guids == guids && this.ivs == ivs
    {
      this.encryptionKey := NormalizeKey(encryptionKey);
      this.guids := guids;
      this.ivs := ivs;
      store := map[];
    }

    /** new InMemoryTokenVault(key): throws for a null or empty key (a key of blanks
        is accepted), otherwise builds the vault. */
    static method Create(encryptionKey: string, guids: GuidSource, ivs: IvSource)
      returns (r: Result<InMemoryTokenVault>)
      ensures VaultKeyError(encryptionKey).Some? ==> r == Failure(VaultKeyError(encryptionKey).value)
      ensures VaultKeyError(encryptionKey).None? ==>
                && r.Success? && fresh(r.value)
                && r.value.encryptionKey == NormalizeKey(encryptionKey) && r.value.store == map[]
                && r.value.guids == guids && r.value.ivs == ivs
    {
      var e := VaultKeyError(encryptionKey);
      if e.Some? {
        return Failure(e.value);
      }
      var v := new InMemoryTokenVault(encryptionKey, guids, ivs);
      return Success(v);
    }

    /** The value stored under a token, decrypted; the lookup MascararPan relies on. */
    function RecuperarPan(token: string): (r: Result<string>)
      reads this
      requires |encryptionKey| == 32
    {
      if token !in store then Failure(KeyNotFound("Token não encontrado"))
      else match Decrypt(encryptionKey, store[token])
        case None => Failure(Cryptographic)
        case Some(p) => Success(p)
    }

    /** ArmazenarPan and ArmazenarCvv after their own validation: draw a token,
        seal the value, and put it under the token. The key is installed when the
        value is sealed, after the token is drawn, so a key AES refuses costs an
        identifier but stores nothing. */
    method Store(prefix: string, plaintext: string) returns (r: Result<string>)
      requires |encryptionKey| == 32
      modifies this, guids, ivs
      ensures guids.issued == old(guids.issued) + 1
      ensures !KeyInstallable(encryptionKey) ==>
                r == Failure(Cryptographic) && store == old(store) && ivs.used == old(ivs.used)
      ensures KeyInstallable(encryptionKey) ==>
                var token := Token(prefix, guids.values(old(guids.issued)));
                && r == Success(token)
                && ivs.used == old(ivs.used) + 1
                && store == old(store)[token := Encrypt(encryptionKey, ivs.ivs(old(ivs.used)), plaintext)]
                && RecuperarPan(token) == Success(plaintext)
    {
      var g := guids.NewGuid();
      var token := Token(prefix, g);
      if !KeyInstallable(encryptionKey) {
        return Failure(Cryptographic);
      }
      var iv := ivs.GenerateIV();
      store := store[token := Encrypt(encryptionKey, iv, plaintext)];
      DecryptEncrypt(encryptionKey, iv, plaintext);
      return Success(token);
    }

    /** ArmazenarPan: only the length is checked, not the digits; a rejected PAN
        draws nothing and stores nothing. */
    method ArmazenarPan(pan: string) returns (r: Result<string>)
      requires |encryptionKey| == 32
      modifies this, guids, ivs
      ensures PanError(pan).Some? ==>
                && r == Failure(PanError(pan).value) && store == old(store)
                && guids.issued == old(guids.issued) && ivs.used == old(ivs.used)
      ensures PanError(pan).None? ==>
                && guids.issued == old(guids.issued) + 1
                && (!KeyInstallable(encryptionKey) ==>
                      r == Failure(Cryptographic) && store == old(store) && ivs.used == old(ivs.used))
                && (KeyInstallable(encryptionKey) ==>
                      var token := Token("pan", guids.values(old(guids.issued)));
                      && r == Success(token)
                      && ivs.used == old(ivs.used) + 1
                      && store == old(store)[token := Encrypt(encryptionKey, ivs.ivs(old(ivs.used)), pan)]
                      && RecuperarPan(token) == Success(pan))
    {
      var e := PanError(pan);
      if e.Some? {
        return Failure(e.value);
      }
      r := Store("pan", pan);
    }

    /** ArmazenarCvv: three or four characters, digits not checked. */
    method ArmazenarCvv(cvv: string) returns (r: Result<string>)
      requires |encryptionKey| == 32
      modifies this, guids, ivs
      ensures CvvError(cvv).Some? ==>
                && r == Failure(CvvError(cvv).value) && store == old(store)
                && guids.issued == old(guids.issued) && ivs.used == old(ivs.used)
      ensures CvvError(cvv).None? ==>
                && guids.issued == old(guids.issued) + 1
                && (!KeyInstallable(encryptionKey) ==>
                      r == Failure(Cryptographic) && store == old(store) && ivs.used == old(ivs.used))
                && (KeyInstallable(encryptionKey) ==>
                      var token := Token("cvv", guids.values(old(guids.issued)));
                      && r == Success(token)
                      && ivs.used == old(ivs.used) + 1
                      && store == old(store)[token := Encrypt(encryptionKey, ivs.ivs(old(ivs.used)), cvv)]
                      && RecuperarPan(token) == Success(cvv))
    {
      var e := CvvError(cvv);
      if e.Some? {
        return Failure(e.value);
      }
      r := Store("cvv", cvv);
    }
  }
}
