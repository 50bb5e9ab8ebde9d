/**
 Encrypted notes: AES-256 in CBC mode (section 6.2 of NIST SP 800-38A) over padded text
 (section 6.3 of RFC 5652), in a container that starts with "Salted__" and an 8-byte salt.
 */
module NotesCrypto {
  import opened Wrappers
  import opened SubBytes
  import opened Aes
  import opened AesLoops

  type Bytes = seq<bv8>

  // ---- Padding ----

  function Pad(data: Bytes): (buf: Bytes)
    ensures |buf| % 16 == 0 && |buf| > |data|
  {
    var n := 16 - |data| % 16;
    data + seq(n, _ => Byte(n))
  }

  function Unpad(data: Bytes): Option<Bytes> {
    if data == [] then None
    else
      var n := Index(data[|data| - 1]);
      if n == 0 || n > 16 || n > |data| then None
      else if data[|data| - n..] != seq(n, _ => Byte(n)) then None
      else Some(data[..|data| - n])
  }

  lemma UnpadPad(data: Bytes)
    ensures Unpad(Pad(data)) == Some(data)
  {
    var n := 16 - |data| % 16;
    var buf := Pad(data);
    ByteIndex(n);
    assert buf[|buf| - 1] == Byte(n);
    assert buf[|buf| - n..] == seq(n, _ => Byte(n));
    assert buf[..|buf| - n] == data;
  }

  /** Of the padded lengths, only the true padding comes off. */
  lemma PadUnpad(buf: Bytes)
    requires Unpad(buf).Some? && |buf| % 16 == 0
    ensures Pad(Unpad(buf).value) == buf
  {
    var n := Index(buf[|buf| - 1]);
    var data := Unpad(buf).value;
    LengthShows(|buf|, n);
    hide Index, Byte;
    assert |data| == |buf| - n;
    assert buf == data + buf[|buf| - n..];
  }

  lemma LengthShows(len: nat, n: nat)
    requires len % 16 == 0 && 0 < n <= 16 && n <= len
    ensures 16 - (len - n) % 16 == n
  {
    assert len == 16 * (len / 16);
    assert (len - n) % 16 == (16 - n) % 16;
  }

  /** The padding: up to the next multiple of 16, every byte of it its length. */
  lemma PadShape(data: Bytes)
    ensures var buf := Pad(data);
            var n := |buf| - |data|;
            1 <= n <= 16 && |buf| % 16 == 0 && buf[..|data|] == data &&
            forall i :: |data| <= i < |buf| ==> buf[i] == n as bv8
  {
    var n := 16 - |data| % 16;
    ByteIs(n);
  }

  lemma ByteIs(n: nat)
    requires n < 256
    ensures Byte(n) == n as bv8
  {
  }

  /** What comes off again: one to sixteen bytes that all name their number. */
  lemma UnpadWhen(data: Bytes, text: Bytes)
    ensures Unpad(data) == Some(text) <==>
            exists n: nat :: 1 <= n <= 16 && data == text + seq(n, _ => Byte(n))
  {
    hide Index, Byte;
    if Unpad(data) == Some(text) {
      var n := Index(data[|data| - 1]);
      assert data == data[..|data| - n] + data[|data| - n..];
    }
    if n: nat :| 1 <= n <= 16 && data == text + seq(n, _ => Byte(n)) {
      ByteIndex(n);
      assert data[|data| - 1] == Byte(n) && data[|data| - n..] == seq(n, _ => Byte(n)) && data[..|data| - n] == text;
    }
  }

  // ---- Chaining ----

  function First(buf: Bytes): Block
    requires |buf| % 16 == 0 && buf != []
  {
    buf[..16]
  }

  function Rest(buf: Bytes): (rest: Bytes)
    requires |buf| % 16 == 0 && buf != []
    ensures |rest| == |buf| - 16 && |rest| % 16 == 0
  {
    buf[16..]
  }

  function CbcEncrypt(rk: Schedule, iv: Block, buf: Bytes): Bytes
    requires |buf| % 16 == 0
    decreases |buf|
  {
    if buf == [] then []
    else
      var c := Encrypt(rk, Xor(First(buf), iv));
      c + CbcEncrypt(rk, c, Rest(buf))
  }

  function CbcDecrypt(rk: Schedule, iv: Block, body: Bytes): Bytes
    requires |body| % 16 == 0
    decreases |body|
  {
    if body == [] then []
    else Xor(Decrypt(rk, First(body)), iv) + CbcDecrypt(rk, First(body), Rest(body))
  }

  lemma {:induction false} CbcLength(rk: Schedule, iv: Block, buf: Bytes)
    requires |buf| % 16 == 0
    ensures |CbcEncrypt(rk, iv, buf)| == |CbcDecrypt(rk, iv, buf)| == |buf|
    decreases |buf|
  {
    hide Encrypt, Decrypt, Xor;
    if buf != [] {
      CbcLength(rk, Encrypt(rk, Xor(First(buf), iv)), Rest(buf));
      CbcLength(rk, First(buf), Rest(buf));
    }
  }

  lemma FirstRest(block: Block, rest: Bytes)
    requires |rest| % 16 == 0
    ensures First(block + rest) == block && Rest(block + rest) == rest
  {
  }

  lemma {:induction false} CbcUndone(rk: Schedule, iv: Block, buf: Bytes)
    requires |buf| % 16 == 0
    ensures |CbcEncrypt(rk, iv, buf)| % 16 == 0
    ensures CbcDecrypt(rk, iv, CbcEncrypt(rk, iv, buf)) == buf
    decreases |buf|
  {
    hide Encrypt, Decrypt, Xor;
    CbcLength(rk, iv, buf);
    if buf != [] {
      var x := Xor(First(buf), iv);
      var c := Encrypt(rk, x);
      CbcUndone(rk, c, Rest(buf));
      FirstRest(c, CbcEncrypt(rk, c, Rest(buf)));
      CipherBijective(rk, x);
      XorTwice(First(buf), iv);
    }
  }

  lemma {:induction false} CbcRedone(rk: Schedule, iv: Block, body: Bytes)
    requires |body| % 16 == 0
    ensures |CbcDecrypt(rk, iv, body)| % 16 == 0
    ensures CbcEncrypt(rk, iv, CbcDecrypt(rk, iv, body)) == body
    decreases |body|
  {
    hide Encrypt, Decrypt, Xor;
    CbcLength(rk, iv, body);
    if body != [] {
      var c := First(body);
      var d := Decrypt(rk, c);
      CbcRedone(rk, c, Rest(body));
      FirstRest(Xor(d, iv), CbcDecrypt(rk, c, Rest(body)));
      CipherBijective(rk, c);
      XorTwice(d, iv);
    }
  }

  function Blocks(buf: Bytes): (bs: seq<Block>)
    requires |buf| % 16 == 0
    decreases |buf|
  {
    if buf == [] then [] else [First(buf)] + Blocks(Rest(buf))
  }

  /** Block i is the i-th sixteen bytes. */
  lemma {:induction false} BlocksAt(buf: Bytes, i: nat)
    requires |buf| % 16 == 0
    ensures 16 * |Blocks(buf)| == |buf|
    ensures i < |Blocks(buf)| ==> Blocks(buf)[i] == buf[16 * i..16 * i + 16]
    decreases |buf|
  {
    if buf != [] {
      var k := if i == 0 then 0 else i - 1;
      BlocksAt(Rest(buf), k);
      if 0 < i < |Blocks(buf)| {
        assert Rest(buf)[16 * k..16 * k + 16] == buf[16 * i..16 * i + 16];
      }
    }
  }

  lemma BlocksFirst(block: Block, rest: Bytes)
    requires |rest| % 16 == 0
    ensures Blocks(block + rest) == [block] + Blocks(rest)
  {
    FirstRest(block, rest);
  }

  /** Every block of the text is added to the block of the ciphertext before it, the first one to the initial block. */
  ghost predicate Chained(rk: Schedule, iv: Block, text: seq<Block>, out: seq<Block>) {
    |out| == |text| &&
    forall i :: 0 <= i < |text| ==> IsEncrypted(rk, text[i], ([iv] + out)[i], out[i])
  }

  predicate IsEncrypted(rk: Schedule, block: Block, before: Block, c: Block) { c == Encrypt(rk, Xor(block, before)) }

  lemma ChainedMore(rk: Schedule, iv: Block, first: Block, c: Block, text: seq<Block>, out: seq<Block>)
    requires IsEncrypted(rk, first, iv, c) && Chained(rk, c, text, out)
    ensures Chained(rk, iv, [first] + text, [c] + out)
  {
    hide IsEncrypted;
    var text', out' := [first] + text, [c] + out;
    forall i | 0 <= i < |text'| ensures IsEncrypted(rk, text'[i], ([iv] + out')[i], out'[i]) {
      if i > 0 { assert IsEncrypted(rk, text[i - 1], ([c] + out)[i - 1], out[i - 1]); }
    }
  }

  lemma {:induction false} EncryptChains(rk: Schedule, iv: Block, buf: Bytes)
    requires |buf| % 16 == 0
    ensures |CbcEncrypt(rk, iv, buf)| % 16 == 0 && Chained(rk, iv, Blocks(buf), Blocks(CbcEncrypt(rk, iv, buf)))
    decreases |buf|
  {
    hide *;
    CbcLength(rk, iv, buf);
    CbcUnfold(rk, iv, buf);
    BlocksUnfold(buf);
    if buf == [] {
      NoBlocks(rk, iv);
    } else {
      var c := Encrypt(rk, Xor(First(buf), iv));
      var rest := CbcEncrypt(rk, c, Rest(buf));
      EncryptChains(rk, c, Rest(buf));
      BlocksFirst(c, rest);
      Encrypted(rk, First(buf), iv);
      ChainedMore(rk, iv, First(buf), c, Blocks(Rest(buf)), Blocks(rest));
    }
  }

  lemma Encrypted(rk: Schedule, block: Block, before: Block)
    ensures IsEncrypted(rk, block, before, Encrypt(rk, Xor(block, before)))
  {
    hide Encrypt, Xor;
  }

  lemma BlocksUnfold(buf: Bytes)
    requires |buf| % 16 == 0
    ensures Blocks(buf) == if buf == [] then [] else [First(buf)] + Blocks(Rest(buf))
  {
    hide First, Rest;
  }

  lemma CbcUnfold(rk: Schedule, iv: Block, buf: Bytes)
    requires |buf| % 16 == 0
    ensures CbcEncrypt(rk, iv, buf) ==
            if buf == [] then []
            else var c := Encrypt(rk, Xor(First(buf), iv)); c + CbcEncrypt(rk, c, Rest(buf))
  {
    hide Encrypt, Xor, First, Rest;
  }

  lemma NoBlocks(rk: Schedule, iv: Block)
    ensures Chained(rk, iv, [], []) && Unchained(rk, iv, [], [])
  {
  }

  /** And on the way back every block that is decrypted is added to the block of the ciphertext before it. */
  ghost predicate Unchained(rk: Schedule, iv: Block, body: seq<Block>, out: seq<Block>) {
    |out| == |body| &&
    forall i :: 0 <= i < |body| ==> IsDecrypted(rk, body[i], ([iv] + body)[i], out[i])
  }

  predicate IsDecrypted(rk: Schedule, c: Block, before: Block, block: Block) { block == Xor(Decrypt(rk, c), before) }

  lemma UnchainedMore(rk: Schedule, iv: Block, c: Block, d: Block, body: seq<Block>, out: seq<Block>)
    requires IsDecrypted(rk, c, iv, d) && Unchained(rk, c, body, out)
    ensures Unchained(rk, iv, [c] + body, [d] + out)
  {
    hide IsDecrypted;
    var body', out' := [c] + body, [d] + out;
    forall i | 0 <= i < |body'| ensures IsDecrypted(rk, body'[i], ([iv] + body')[i], out'[i]) {
      if i > 0 { assert IsDecrypted(rk, body[i - 1], ([c] + body)[i - 1], out[i - 1]); }
    }
  }

  lemma {:induction false} DecryptChains(rk: Schedule, iv: Block, body: Bytes)
    requires |body| % 16 == 0
    ensures |CbcDecrypt(rk, iv, body)| % 16 == 0 && Unchained(rk, iv, Blocks(body), Blocks(CbcDecrypt(rk, iv, body)))
    decreases |body|
  {
    hide Decrypt, Xor, First, Unchained, Rest;
    CbcLength(rk, iv, body);
    NoBlocks(rk, iv);
    if body != [] {
      var c := First(body);
      DecryptChains(rk, c, Rest(body));
      BlocksFirst(Xor(Decrypt(rk, c), iv), CbcDecrypt(rk, c, Rest(body)));
      UnchainedMore(rk, iv, c, Xor(Decrypt(rk, c), iv), Blocks(Rest(body)), Blocks(CbcDecrypt(rk, c, Rest(body))));
    }
  }

  method CbcEncryptLoop(sbox: Table, key: Key, iv: Block, plaintext: Bytes) returns (out: Bytes)
    requires IsSBox(sbox)
    ensures out == CbcEncrypt(Expand(key), iv, Pad(plaintext))
  {
    hide Encrypt, Expand, IsSBox, Xor, Pad;
    var rk := ExpandKey(sbox, key);
    var buf := Pad(plaintext);
    out := [];
    var prev := iv;
    var off := 0;
    assert buf[0..] == buf;
    while off < |buf|
      invariant off % 16 == 0 && off <= |buf|
      invariant CbcEncrypt(rk, iv, buf) == out + CbcEncrypt(rk, prev, buf[off..])
    {
      assert First(buf[off..]) == buf[off..off + 16] && Rest(buf[off..]) == buf[off + 16..];
      prev := EncryptBlock(sbox, rk, Xor(buf[off..off + 16], prev));
      out := out + prev;
      off := off + 16;
    }
  }

  method CbcDecryptLoop(sbox: Table, invSbox: Table, key: Key, iv: Block, body: Bytes) returns (out: Bytes)
    requires IsSBox(sbox) && IsInvSBox(invSbox) && |body| % 16 == 0
    ensures out == CbcDecrypt(Expand(key), iv, body)
  {
    hide Decrypt, Expand, IsSBox, IsInvSBox, Xor;
    var rk := ExpandKey(sbox, key);
    out := [];
    var prev := iv;
    var off := 0;
    assert body[0..] == body;
    while off < |body|
      invariant off % 16 == 0 && off <= |body|
      invariant CbcDecrypt(rk, iv, body) == out + CbcDecrypt(rk, prev, body[off..])
    {
      assert First(body[off..]) == body[off..off + 16] && Rest(body[off..]) == body[off + 16..];
      var blk: Block := body[off..off + 16];
      var p := DecryptBlock(invSbox, rk, blk);
      out := out + Xor(p, prev);
      prev := blk;
      off := off + 16;
    }
  }

  // ---- The container ----

  /** How a passphrase and a salt become a key and an initial block; any function at all here. */
  type Derivation = (string, Bytes) -> (Key, Block)

  // "Salted__"
  const MAGIC: Bytes := [0x53, 0x61, 0x6C, 0x74, 0x65, 0x64, 0x5F, 0x5F]

  datatype Reason = Short | Header | Length | Padding
  datatype Opened = Plain(text: Bytes) | Rejected(reason: Reason)

  function Seal(derive: Derivation, passphrase: string, salt: Bytes, text: Bytes): Bytes
    requires |salt| == 8
  {
    var (key, iv) := derive(passphrase, salt);
    MAGIC + salt + CbcEncrypt(Expand(key), iv, Pad(text))
  }

  function Open(derive: Derivation, passphrase: string, data: Bytes): Opened {
    if |data| < 16 then Rejected(Short)
    else if data[..8] != MAGIC then Rejected(Header)
    else
      var salt, body := data[8..16], data[16..];
      if body == [] then Rejected(Short)
      else if |body| % 16 != 0 then Rejected(Length)
      else
        var (key, iv) := derive(passphrase, salt);
        match Unpad(CbcDecrypt(Expand(key), iv, body))
        case None => Rejected(Padding)
        case Some(text) => Plain(text)
  }

  /** Opening what was sealed gives the text back, whatever the key derivation. */
  lemma OpenSeal(derive: Derivation, passphrase: string, salt: Bytes, text: Bytes)
    requires |salt| == 8
    ensures Open(derive, passphrase, Seal(derive, passphrase, salt, text)) == Plain(text)
  {
    hide CbcEncrypt, CbcDecrypt, Expand, Pad, Unpad;
    var (key, iv) := derive(passphrase, salt);
    var body := CbcEncrypt(Expand(key), iv, Pad(text));
    var data := Seal(derive, passphrase, salt, text);
    CbcLength(Expand(key), iv, Pad(text));
    assert data[..8] == MAGIC && data[8..16] == salt && data[16..] == body;
    CbcUndone(Expand(key), iv, Pad(text));
    UnpadPad(text);
  }

  /** Whatever opens is what sealing its text under its own salt gives: the container has one form per text and salt. */
  lemma SealOpen(derive: Derivation, passphrase: string, data: Bytes)
    requires Open(derive, passphrase, data).Plain?
    ensures |data| >= 16 && Seal(derive, passphrase, data[8..16], Open(derive, passphrase, data).text) == data
  {
    hide CbcEncrypt, CbcDecrypt, Expand, Pad, Unpad;
    var salt, body := data[8..16], data[16..];
    var (key, iv) := derive(passphrase, salt);
    CbcRedone(Expand(key), iv, body);
    PadUnpad(CbcDecrypt(Expand(key), iv, body));
    assert data == data[..8] + salt + body;
  }

  /** So the data that open are exactly the sealed ones. */
  lemma OpensIffSealed(derive: Derivation, passphrase: string, data: Bytes)
    ensures Open(derive, passphrase, data).Plain? <==>
            exists salt: Bytes, text: Bytes :: |salt| == 8 && data == Seal(derive, passphrase, salt, text)
  {
    hide Open, Seal;
    if Open(derive, passphrase, data).Plain? {
      SealOpen(derive, passphrase, data);
    }
    if salt: Bytes, text: Bytes :| |salt| == 8 && data == Seal(derive, passphrase, salt, text) {
      OpenSeal(derive, passphrase, salt, text);
    }
  }

  /** The container says so in letters. */
  lemma MagicIs()
    ensures |MAGIC| == 8 && forall i :: 0 <= i < 8 ==> MAGIC[i] as int == "Salted__"[i] as int
  {
  }

  /** Where the parts of a container are. */
  lemma SealedParts(derive: Derivation, passphrase: string, salt: Bytes, text: Bytes)
    requires |salt| == 8
    ensures var data := Seal(derive, passphrase, salt, text);
            data[..8] == MAGIC && data[8..16] == salt && |data| == 16 + |Pad(text)| &&
            data[16..] == CbcEncrypt(Expand(derive(passphrase, salt).0), derive(passphrase, salt).1, Pad(text))
  {
    hide *;
    var d := derive(passphrase, salt);
    MagicIs();
    SealIs(derive, passphrase, salt, text);
    CbcLength(Expand(d.0), d.1, Pad(text));
    Concatenated(MAGIC, salt, CbcEncrypt(Expand(d.0), d.1, Pad(text)));
  }

  lemma SealIs(derive: Derivation, passphrase: string, salt: Bytes, text: Bytes)
    requires |salt| == 8
    ensures Seal(derive, passphrase, salt, text) ==
            MAGIC + salt + CbcEncrypt(Expand(derive(passphrase, salt).0), derive(passphrase, salt).1, Pad(text))
  {
    hide CbcEncrypt, Expand, Pad;
  }

  lemma Concatenated(magic: Bytes, salt: Bytes, body: Bytes)
    requires |magic| == |salt| == 8
    ensures var data := magic + salt + body; data[..8] == magic && data[8..16] == salt && data[16..] == body
  {
  }

  /** Why a container is refused, in the order in which it is looked at. */
  lemma OpenRefuses(derive: Derivation, passphrase: string, data: Bytes)
    ensures var r := Open(derive, passphrase, data);
            var magic := |data| >= 16 && data[..8] == MAGIC;
            (r == Rejected(Short) <==> |data| < 16 || (magic && |data| == 16)) &&
            (r == Rejected(Header) <==> |data| >= 16 && !magic) &&
            (r == Rejected(Length) <==> magic && |data| % 16 != 0) &&
            (r.Plain? || r == Rejected(Padding) <==> magic && |data| > 16 && |data| % 16 == 0)
  {
    hide CbcDecrypt, Expand, Unpad;
  }

  method SealNote(sbox: Table, derive: Derivation, passphrase: string, salt: Bytes, text: Bytes) returns (data: Bytes)
    requires IsSBox(sbox) && |salt| == 8
    ensures data == Seal(derive, passphrase, salt, text)
  {
    var (key, iv) := derive(passphrase, salt);
    var body := CbcEncryptLoop(sbox, key, iv, text);
    data := MAGIC + salt + body;
  }

  /** The same decisions as Open, with the reason for each refusal. */
  method OpenNote(sbox: Table, invSbox: Table, derive: Derivation, passphrase: string, data: Bytes) returns (r: Opened)
    requires IsSBox(sbox) && IsInvSBox(invSbox)
    ensures r == Open(derive, passphrase, data)
  {
    hide IsSBox, IsInvSBox, CbcDecrypt, Expand;
    if |data| < 16 { return Rejected(Short); }
    if data[..8] != MAGIC { return Rejected(Header); }
    var salt, body := data[8..16], data[16..];
    if body == [] { return Rejected(Short); }
    if |body| % 16 != 0 { return Rejected(Length); }
    var (key, iv) := derive(passphrase, salt);
    var buf := CbcDecryptLoop(sbox, invSbox, key, iv, body);
    var plain := Unpad(buf);
    if plain.None? { return Rejected(Padding); }
    return Plain(plain.value);
  }
}
