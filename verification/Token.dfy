/**
  Decoding a token: upper-case Base16 (section 8 of RFC 4648), cut into blocks of the key's
  length, each decrypted, and the plaintexts joined. None stands for a Go panic or an error.
 */
module Token {
  import opened MachineInts
  import opened Wrappers

  /** The position of c in 0123456789ABCDEF, or -1. */
  function DigitIndex(c: byte): int {
    if 48 <= c <= 57 then c - 48 else if 65 <= c <= 70 then c - 55 else -1
  }

  function Digit(k: int): byte
    requires 0 <= k < 16
  {
    if k < 10 then 48 + k else 55 + k
  }

  /** The conversion to byte keeps the low eight bits, also of the sums down to -17 that bad digits give. */
  function ToByte(hi: byte, lo: byte): byte {
    var sum := DigitIndex(hi) * 16 + DigitIndex(lo);
    if sum < 0 then sum + 256 else sum
  }

  /** Pairs of digits as bytes; a last digit without a partner is paired with a zero byte. */
  function FromHex(hex: Bytes): Bytes {
    if hex == [] then []
    else if |hex| == 1 then [ToByte(hex[0], 0)]
    else [ToByte(hex[0], hex[1])] + FromHex(hex[2..])
  }

  function ToHex(bytes: Bytes): Bytes {
    if bytes == [] then [] else [Digit(bytes[0] / 16), Digit(bytes[0] % 16)] + ToHex(bytes[1..])
  }

  predicate IsUpperHex(text: Bytes) {
    forall c | c in text :: DigitIndex(c) >= 0
  }

  /** The digits are those of 0123456789ABCDEF, in this order, and no other byte is one. */
  lemma DigitsOfBase16(c: byte)
    ensures var alphabet := "0123456789ABCDEF";
            && |alphabet| == 16
            && (forall k | 0 <= k < 16 :: DigitIndex(alphabet[k] as int) == k && Digit(k) == alphabet[k] as int)
            && (DigitIndex(c) == -1 <==> forall k | 0 <= k < 16 :: alphabet[k] as int != c)
  {
    var alphabet := "0123456789ABCDEF";
    if DigitIndex(c) >= 0 {
      assert alphabet[DigitIndex(c)] as int == c;
    }
  }

  /** Byte k comes from the digits at 2k and 2k + 1; past the end there is a zero byte. */
  lemma {:induction false} FromHexAt(hex: Bytes, k: nat)
    requires 2 * k < |hex|
    ensures |FromHex(hex)| == (|hex| + 1) / 2
    ensures var lo := if 2 * k + 1 < |hex| then hex[2 * k + 1] else 0;
            FromHex(hex)[k] as int == (DigitIndex(hex[2 * k]) * 16 + DigitIndex(lo)) % 256
  {
    if |hex| > 2 {
      FromHexAt(hex[2..], if k > 0 then k - 1 else 0);
      if k > 0 {
        assert hex[2..][2 * (k - 1)] == hex[2 * k];
      }
    }
  }

  /** Decoding inverts the Base16 encoder on every byte string. */
  lemma {:induction false} FromHexInvertsToHex(bytes: Bytes)
    ensures FromHex(ToHex(bytes)) == bytes
    ensures |ToHex(bytes)| == 2 * |bytes| && IsUpperHex(ToHex(bytes))
  {
    if bytes != [] {
      FromHexInvertsToHex(bytes[1..]);
      assert ToHex(bytes)[2..] == ToHex(bytes[1..]);
      assert bytes == [bytes[0]] + bytes[1..];
    }
  }

  /** Encoding inverts the decoder exactly on upper-case hex text of even length. */
  lemma {:induction false} ToHexInvertsFromHexIff(hex: Bytes)
    ensures ToHex(FromHex(hex)) == hex <==> |hex| % 2 == 0 && IsUpperHex(hex)
  {
    if |hex| % 2 == 0 && IsUpperHex(hex) {
      EvenHexSurvives(hex);
    } else {
      FromHexInvertsToHex(FromHex(hex));
    }
  }

  lemma PairSurvives(hi: byte, lo: byte)
    requires DigitIndex(hi) >= 0 && DigitIndex(lo) >= 0
    ensures Digit(ToByte(hi, lo) / 16) == hi && Digit(ToByte(hi, lo) % 16) == lo
  {
  }

  lemma {:induction false} EvenHexSurvives(hex: Bytes)
    requires |hex| % 2 == 0 && IsUpperHex(hex)
    ensures ToHex(FromHex(hex)) == hex
  {
    if hex != [] {
      assert hex[0] in hex && hex[1] in hex;
      assert forall c | c in hex[2..] :: c in hex;
      EvenHexSurvives(hex[2..]);
      PairSurvives(hex[0], hex[1]);
      assert FromHex(hex)[1..] == FromHex(hex[2..]);
      assert hex == [hex[0], hex[1]] + hex[2..];
    }
  }

  /**
    The decoding loop. Slicing two bytes past the end of an odd-length text panics, unless the
    byte slice was allocated with room to spare: then it reads a zero. capacity is that room.
   */
  method HexToBytes(hex: Bytes, capacity: nat) returns (result: Option<Bytes>)
    requires |hex| <= capacity
    ensures result == if |hex| % 2 == 1 && capacity == |hex| then None else Some(FromHex(hex))
  {
    var bytes := [];
    var i := 0;
    ghost var half := 0;
    while i < |hex|
      invariant 0 <= i <= |hex| + 1 && i == 2 * half
      invariant i == |hex| + 1 ==> capacity > |hex|
      invariant FromHex(hex) == bytes + Rest(hex, i)
    {
      if i + 2 > capacity {
        return None;
      }
      var lo := if i + 1 < |hex| then hex[i + 1] else 0;
      DecodeOneMore(bytes, hex, i);
      bytes := bytes + [ToByte(hex[i], lo)];
      i := i + 2;
      half := half + 1;
    }
    assert bytes + [] == bytes;
    result := Some(bytes);
  }

  /** What is decoded from position i on. */
  function Rest(hex: Bytes, i: nat): Bytes {
    if i < |hex| then FromHex(hex[i..]) else []
  }

  lemma DecodeOneMore(bytes: Bytes, hex: Bytes, i: nat)
    requires i < |hex|
    ensures bytes + Rest(hex, i)
         == (bytes + [ToByte(hex[i], if i + 1 < |hex| then hex[i + 1] else 0)]) + Rest(hex, i + 2)
  {
    if i + 2 <= |hex| {
      assert hex[i..][2..] == hex[i + 2..];
    }
  }

  // ---- blocks ----

  function Flatten(parts: seq<Bytes>): Bytes {
    if parts == [] then [] else parts[0] + Flatten(parts[1..])
  }

  /** Consecutive blocks of n bytes, the last one possibly shorter. */
  function Blocks(bytes: Bytes, n: nat): seq<Bytes>
    requires n > 0
  {
    if bytes == [] then []
    else if |bytes| <= n then [bytes]
    else [bytes[..n]] + Blocks(bytes[n..], n)
  }

  /** blocks make up bytes, and all are full but for a last one of the remaining size. */
  predicate Partition(blocks: seq<Bytes>, bytes: Bytes, n: nat)
    requires n > 0
  {
    && Flatten(blocks) == bytes
    && (forall i | 0 <= i < |blocks| - 1 :: |blocks[i]| == n)
    && (blocks == [] <==> bytes == [])
    && (bytes != [] ==> |blocks[|blocks| - 1]| == if |bytes| % n == 0 then n else |bytes| % n)
  }

  lemma PartitionOneMore(first: Bytes, rest: seq<Bytes>, more: Bytes, n: nat)
    requires n > 0 && |first| == n && more != [] && Partition(rest, more, n)
    ensures Partition([first] + rest, first + more, n)
  {
    var blocks := [first] + rest;
    assert blocks[1..] == rest;
    RemainderWithout(|first + more|, n);
    forall i | 0 <= i < |blocks| - 1 ensures |blocks[i]| == n {
      assert i > 0 ==> blocks[i] == rest[i - 1];
    }
  }

  lemma OneBlock(bytes: Bytes, n: nat)
    requires 0 < |bytes| <= n
    ensures Partition([bytes], bytes, n)
  {
    assert [bytes][1..] == [];
    DivModUnique(|bytes|, n, if |bytes| == n then 1 else 0, if |bytes| == n then 0 else |bytes|);
  }

  /** Splitting loses nothing; all blocks are full but for a last one of the remaining size. */
  lemma {:induction false} BlocksPartition(bytes: Bytes, n: nat)
    requires n > 0
    ensures Partition(Blocks(bytes, n), bytes, n)
  {
    if |bytes| > n {
      BlocksPartition(bytes[n..], n);
      PartitionOneMore(bytes[..n], Blocks(bytes[n..], n), bytes[n..], n);
      assert bytes == bytes[..n] + bytes[n..];
    } else if bytes != [] {
      OneBlock(bytes, n);
    }
  }

  lemma RemainderWithout(m: nat, n: nat)
    requires 0 < n <= m
    ensures (m - n) % n == m % n
    ensures (m - n) / n == m / n - 1
  {
    var q, y := m / n, m % n;
    assert m - n == (q - 1) * n + y;
    DivModUnique(m - n, n, q - 1, y);
  }

  /** A positive multiple of n is at least n. */
  lemma {:induction false} MultipleAtLeast(k: nat, n: nat)
    requires k > 0
    ensures k * n >= n
  {
    if k > 1 {
      MultipleAtLeast(k - 1, n);
      assert k * n == (k - 1) * n + n;
    }
  }

  /** No multiple of n but zero lies between -n and n. */
  lemma LargeMultiple(d: int, n: nat)
    requires d != 0
    ensures d * n >= n || d * n + n <= 0
  {
    if d > 0 {
      MultipleAtLeast(d, n);
    } else {
      MultipleAtLeast(-d, n);
      assert -d * n == -(d * n);
    }
  }

  lemma DivModUnique(m: int, n: nat, q: int, y: int)
    requires n > 0 && m == q * n + y && 0 <= y < n
    ensures m / n == q && m % n == y
  {
    var p, x := m / n, m % n;
    assert m == p * n + x;
    assert (p - q) * n == y - x by {
      assert (p - q) * n == p * n - q * n;
    }
    if p != q {
      LargeMultiple(p - q, n);
    }
  }

  /** How many blocks there are. */
  function BlockCount(m: nat, n: nat): nat
    requires n > 0
  {
    if m % n != 0 then m / n + 1 else m / n
  }

  lemma {:induction false} BlocksCount(bytes: Bytes, n: nat)
    requires n > 0
    ensures |Blocks(bytes, n)| == BlockCount(|bytes|, n)
  {
    if |bytes| > n {
      BlocksCount(bytes[n..], n);
      RemainderWithout(|bytes|, n);
    } else if bytes != [] {
      DivModUnique(|bytes|, n, if |bytes| == n then 1 else 0, if |bytes| == n then 0 else |bytes|);
    } else {
      DivModUnique(0, n, 0, 0);
    }
  }

  lemma BlockShifted(bytes: Bytes, n: nat, from: nat)
    requires n <= |bytes| && from <= |bytes| - n
    ensures bytes[n..][from..if from + n <= |bytes| - n then from + n else |bytes| - n]
         == bytes[from + n..if from + n + n <= |bytes| then from + n + n else |bytes|]
  {
  }

  /** Block i in terms of the bytes it covers. */
  lemma {:induction false} BlockAt(bytes: Bytes, n: nat, i: nat)
    requires n > 0 && i < |Blocks(bytes, n)|
    ensures 0 <= i * n < |bytes|
    ensures Blocks(bytes, n)[i] == bytes[i * n..if i * n + n <= |bytes| then i * n + n else |bytes|]
  {
    if i > 0 {
      var from := (i - 1) * n;
      BlockAt(bytes[n..], n, i - 1);
      assert i * n == from + n;
      BlockShifted(bytes, n, from);
    }
  }

  /** The splitting loop; a block length of zero makes the division panic. */
  method SplitBytes(bytes: Bytes, splitLength: nat) returns (result: Option<seq<Bytes>>)
    ensures result == if splitLength == 0 then None else Some(Blocks(bytes, splitLength))
  {
    if splitLength == 0 {
      return None;
    }
    var y := |bytes| % splitLength;
    var x := if y != 0 then |bytes| / splitLength + 1 else |bytes| / splitLength;
    BlocksCount(bytes, splitLength);
    var arrays := [];
    for i := 0 to x
      invariant arrays == Blocks(bytes, splitLength)[..i]
    {
      ghost var blocks := Blocks(bytes, splitLength);
      assert blocks[..i + 1] == blocks[..i] + [blocks[i]];
      BlockAt(bytes, splitLength, i);
      LastBlockIsShort(|bytes|, splitLength, i);
      var from := i * splitLength;
      if i == x - 1 && y != 0 {
        assert blocks[i] == bytes[from..];
        arrays := arrays + [bytes[from..]];
      } else {
        assert blocks[i] == bytes[from..from + splitLength];
        arrays := arrays + [bytes[from..from + splitLength]];
      }
    }
    assert Blocks(bytes, splitLength)[..x] == Blocks(bytes, splitLength);
    result := Some(arrays);
  }

  /** Block i is full unless it is the last one and there is a remainder. */
  lemma LastBlockIsShort(m: nat, n: nat, i: nat)
    requires n > 0 && i < BlockCount(m, n)
    ensures i * n + n <= m <==> !(i == BlockCount(m, n) - 1 && m % n != 0)
  {
    BlockEnd(m / n, m % n, n, i);
    assert m == (m / n) * n + m % n;
  }

  lemma BlockEnd(q: nat, y: nat, n: nat, i: nat)
    requires y < n && i <= q
    ensures i * n + n <= q * n + y <==> i < q
  {
    assert q * n - i * n == (q - i) * n;
    if i < q {
      MultipleAtLeast(q - i, n);
    }
  }

  // ---- the whole token ----

  /** The joined plaintexts, or None as soon as one block fails. */
  function DecryptAll(decrypt: Bytes -> Option<Bytes>, blocks: seq<Bytes>): Option<Bytes> {
    if blocks == [] then Some([])
    else
      var n := |blocks| - 1;
      var front := DecryptAll(decrypt, blocks[..n]);
      if front == None then None
      else
        var last := decrypt(blocks[n]);
        if last == None then None else Some(front.value + last.value)
  }

  /** One block that fails, wherever it stands, fails the whole. */
  lemma {:induction false} DecryptFailsIff(decrypt: Bytes -> Option<Bytes>, blocks: seq<Bytes>)
    ensures DecryptAll(decrypt, blocks) == None <==> exists i :: 0 <= i < |blocks| && decrypt(blocks[i]) == None
  {
    if blocks != [] {
      var n := |blocks| - 1;
      DecryptFailsIff(decrypt, blocks[..n]);
      assert forall i | 0 <= i < n :: blocks[i] == blocks[..n][i];
    }
  }

  /** Otherwise the plaintexts are joined in order. */
  lemma {:induction false} DecryptJoins(decrypt: Bytes -> Option<Bytes>, blocks: seq<Bytes>)
    requires forall i | 0 <= i < |blocks| :: decrypt(blocks[i]) != None
    ensures DecryptAll(decrypt, blocks)
         == Some(Flatten(seq(|blocks|, i requires 0 <= i < |blocks| => decrypt(blocks[i]).value)))
  {
    DecryptEncrypted(decrypt, blocks, seq(|blocks|, i requires 0 <= i < |blocks| => decrypt(blocks[i]).value));
  }

  /** The JSON text inside a token. */
  method Decrypt(tokenText: Bytes, capacity: nat, splitLength: nat, decrypt: Bytes -> Option<Bytes>)
    returns (jsonText: Option<Bytes>)
    requires |tokenText| <= capacity
    ensures jsonText ==
            if (|tokenText| % 2 == 1 && capacity == |tokenText|) || splitLength == 0 then None
            else DecryptAll(decrypt, Blocks(FromHex(tokenText), splitLength))
    ensures jsonText == None <==>
              || (|tokenText| % 2 == 1 && capacity == |tokenText|) || splitLength == 0
              || exists block :: block in Blocks(FromHex(tokenText), splitLength) && decrypt(block) == None
  {
    if splitLength > 0 {
      DecryptFailsIff(decrypt, Blocks(FromHex(tokenText), splitLength));
    }
    var contentBytes := HexToBytes(tokenText, capacity);
    if contentBytes == None {
      return None;
    }
    var arrays := SplitBytes(contentBytes.value, splitLength);
    if arrays == None {
      return None;
    }
    var blocks := arrays.value;
    var text := [];
    for i := 0 to |blocks|
      invariant DecryptAll(decrypt, blocks[..i]) == Some(text)
    {
      assert blocks[..i + 1][..i] == blocks[..i];
      var decryptBytes := decrypt(blocks[i]);
      if decryptBytes == None {
        StaysFailed(decrypt, blocks, i + 1);
        return None;
      }
      text := text + decryptBytes.value;
    }
    assert blocks[..|blocks|] == blocks;
    return Some(text);
  }

  lemma {:induction false} StaysFailed(decrypt: Bytes -> Option<Bytes>, blocks: seq<Bytes>, k: nat)
    requires k <= |blocks| && DecryptAll(decrypt, blocks[..k]) == None
    ensures DecryptAll(decrypt, blocks) == None
  {
    if k < |blocks| {
      assert blocks[..|blocks| - 1][..k] == blocks[..k];
      StaysFailed(decrypt, blocks[..|blocks| - 1], k);
    } else {
      assert blocks[..k] == blocks;
    }
  }

  function EncryptAll(encrypt: Bytes -> Bytes, plain: seq<Bytes>): seq<Bytes> {
    if plain == [] then [] else [encrypt(plain[0])] + EncryptAll(encrypt, plain[1..])
  }

  /** Splitting whole blocks gives the blocks back. */
  lemma {:induction false} BlocksOfFlatten(parts: seq<Bytes>, n: nat)
    requires n > 0 && forall p | p in parts :: |p| == n
    ensures Blocks(Flatten(parts), n) == parts
  {
    if parts != [] {
      BlocksOfFlatten(parts[1..], n);
      var rest := Flatten(parts[1..]);
      assert |parts[0]| == n;
      assert Flatten(parts)[..n] == parts[0] && Flatten(parts)[n..] == rest;
      assert parts == [parts[0]] + parts[1..];
      if parts[1..] == [] {
        assert Flatten(parts) == parts[0];
      } else {
        assert |rest| == |parts[1]| + |Flatten(parts[2..])| by {
          assert parts[1..][1..] == parts[2..];
        }
      }
    }
  }

  lemma {:induction false} EncryptedBlocks(encrypt: Bytes -> Bytes, decrypt: Bytes -> Option<Bytes>,
                                           plain: seq<Bytes>, n: nat)
    requires forall p | p in plain :: |encrypt(p)| == n && decrypt(encrypt(p)) == Some(p)
    ensures |EncryptAll(encrypt, plain)| == |plain|
    ensures forall i | 0 <= i < |plain| :: EncryptAll(encrypt, plain)[i] == encrypt(plain[i])
  {
    if plain != [] {
      EncryptedBlocks(encrypt, decrypt, plain[1..], n);
    }
  }

  lemma EncryptedOneByOne(encrypt: Bytes -> Bytes, decrypt: Bytes -> Option<Bytes>, plain: seq<Bytes>, n: nat)
    requires forall p | p in plain :: |encrypt(p)| == n && decrypt(encrypt(p)) == Some(p)
    ensures var blocks := EncryptAll(encrypt, plain);
            && |blocks| == |plain| && (forall b | b in blocks :: |b| == n)
            && forall i | 0 <= i < |plain| :: decrypt(blocks[i]) == Some(plain[i])
  {
    var blocks := EncryptAll(encrypt, plain);
    EncryptedBlocks(encrypt, decrypt, plain, n);
    forall i | 0 <= i < |plain| ensures |blocks[i]| == n && decrypt(blocks[i]) == Some(plain[i]) {
      assert plain[i] in plain;
    }
  }

  lemma {:induction false} DecryptEncrypted(decrypt: Bytes -> Option<Bytes>, blocks: seq<Bytes>, plain: seq<Bytes>)
    requires |blocks| == |plain| && forall i | 0 <= i < |plain| :: decrypt(blocks[i]) == Some(plain[i])
    ensures DecryptAll(decrypt, blocks) == Some(Flatten(plain))
  {
    if plain != [] {
      var n := |plain| - 1;
      DecryptEncrypted(decrypt, blocks[..n], plain[..n]);
      FlattenAppend(plain[..n], plain[n]);
      assert plain[..n] + [plain[n]] == plain;
    }
  }

  lemma {:induction false} FlattenAppend(parts: seq<Bytes>, part: Bytes)
    ensures Flatten(parts + [part]) == Flatten(parts) + part
  {
    if parts != [] {
      FlattenAppend(parts[1..], part);
      assert (parts + [part])[1..] == parts[1..] + [part];
    } else {
      assert (parts + [part])[1..] == [];
    }
  }

  /**
    A token made by encrypting plaintext blocks into blocks of the key's length and writing them
    as Base16 decodes to the joined plaintext. Its length is even, so capacity plays no part.
   */
  lemma {:induction false} TokenRoundTrip(encrypt: Bytes -> Bytes, decrypt: Bytes -> Option<Bytes>,
                                          plain: seq<Bytes>, splitLength: nat)
    requires splitLength > 0
    requires forall p | p in plain :: |encrypt(p)| == splitLength && decrypt(encrypt(p)) == Some(p)
    ensures var token := ToHex(Flatten(EncryptAll(encrypt, plain)));
            && |token| % 2 == 0
            && DecryptAll(decrypt, Blocks(FromHex(token), splitLength)) == Some(Flatten(plain))
  {
    var blocks := EncryptAll(encrypt, plain);
    EncryptedOneByOne(encrypt, decrypt, plain, splitLength);
    FromHexInvertsToHex(Flatten(blocks));
    BlocksOfFlatten(blocks, splitLength);
    DecryptEncrypted(decrypt, blocks, plain);
  }
}
