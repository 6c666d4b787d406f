/**
 * Base-58 text for binary data: blocks of eight bytes become eleven letters, a shorter
 * last block the fewest letters that hold it; and addresses, which put a variable-length
 * tag in front of the data and a checksum behind it.
 */
module Base58 {
  import opened Words
  import opened Wrappers
  import opened Powers
  import opened Radix
  import IntUtil
  import opened Varint

  const ALPHABET_SIZE := 58
  const ENCODED_BLOCK_SIZES: seq<nat> := [0, 2, 3, 5, 6, 7, 9, 10, 11]
  const FULL_BLOCK := 8
  const FULL_ENCODED_BLOCK := 11
  const CHECKSUM_SIZE := 4

  // ---- letters ----

  /** The digits without 0, the capitals without I and O, the small letters without l. */
  function Letter(d: nat): char
    requires d < ALPHABET_SIZE
  {
    if d < 9 then '1' + d as char
    else if d < 17 then 'A' + (d - 9) as char
    else if d < 22 then 'J' + (d - 17) as char
    else if d < 33 then 'P' + (d - 22) as char
    else if d < 44 then 'a' + (d - 33) as char
    else 'm' + (d - 44) as char
  }

  /** The number of a letter, or none for a character outside the alphabet. */
  function DigitOf(c: char, n: nat := ALPHABET_SIZE): (r: Option<nat>)
    requires n <= ALPHABET_SIZE
    ensures r.Some? ==> r.value < n && Letter(r.value) == c
    ensures r.None? ==> forall d :: 0 <= d < n ==> Letter(d) != c
  {
    if n == 0 then None else if Letter(n - 1) == c then Some(n - 1) else DigitOf(c, n - 1)
  }

  /** The letters in order. */
  lemma {:induction false} LettersAre(d: nat)
    requires d < 58
    ensures "123456789ABCDEFGHJKLMNPQRSTUVWXYZabcdefghijkmnopqrstuvwxyz"[d] == Letter(d)
    ensures ALPHABET_SIZE == |"123456789ABCDEFGHJKLMNPQRSTUVWXYZabcdefghijkmnopqrstuvwxyz"|
  {
    var letters := "123456789ABCDEFGHJKLMNPQRSTUVWXYZabcdefghijkmnopqrstuvwxyz";
    assert d < 44 ==> letters[d] == "123456789ABCDEFGHJKLMNPQRSTUVWXYZabcdefghijk"[d];
    assert d < 33 ==> letters[d] == "123456789ABCDEFGHJKLMNPQRSTUVWXYZ"[d];
    assert d < 22 ==> letters[d] == "123456789ABCDEFGHJKLMN"[d];
    assert d < 9 ==> letters[d] == "123456789"[d];
  }

  lemma {:induction false} DigitOfLetter(d: nat)
    requires d < ALPHABET_SIZE
    ensures DigitOf(Letter(d)) == Some(d)
  {
    assert forall e :: 0 <= e < ALPHABET_SIZE && Letter(e) == Letter(d) ==> e == d;
  }

  function Spelt(ds: seq<nat>): (s: string)
    requires Below(ds, ALPHABET_SIZE)
    ensures |s| == |ds| && forall i :: 0 <= i < |s| ==> s[i] == Letter(ds[i])
  {
    seq(|ds|, i requires 0 <= i < |ds| => Letter(ds[i]))
  }

  /** The numbers of the letters, or none when a character is not a letter. */
  function Unspelt(s: string): (r: Option<seq<nat>>)
    ensures r.Some? ==> |r.value| == |s| && Below(r.value, ALPHABET_SIZE) && Spelt(r.value) == s
    ensures r.None? ==> exists i :: 0 <= i < |s| && DigitOf(s[i]).None?
  {
    if forall i :: 0 <= i < |s| ==> DigitOf(s[i]).Some? then
      Some(seq(|s|, i requires 0 <= i < |s| => DigitOf(s[i]).value))
    else None
  }

  lemma {:induction false} UnspeltSpelt(ds: seq<nat>)
    requires Below(ds, ALPHABET_SIZE)
    ensures Unspelt(Spelt(ds)) == Some(ds)
  {
    forall i | 0 <= i < |ds|
      ensures DigitOf(Spelt(ds)[i]) == Some(ds[i])
    {
      DigitOfLetter(ds[i]);
    }
    assert Unspelt(Spelt(ds)).value == ds;
  }

  // ---- blocks ----

  /** How many bytes so many letters stand for. */
  function DecodedSize(n: nat): Option<nat>
    requires n <= FULL_ENCODED_BLOCK
  {
    match n
    case 0 => Some(0)
    case 2 => Some(1)
    case 3 => Some(2)
    case 5 => Some(3)
    case 6 => Some(4)
    case 7 => Some(5)
    case 9 => Some(6)
    case 10 => Some(7)
    case 11 => Some(8)
    case _ => None
  }

  lemma {:induction false} SizesMatch(n: nat)
    requires n <= FULL_ENCODED_BLOCK
    ensures match DecodedSize(n)
      case Some(m) => m <= FULL_BLOCK && ENCODED_BLOCK_SIZES[m] == n
      case None => forall m :: 0 <= m <= FULL_BLOCK ==> ENCODED_BLOCK_SIZES[m] != n
    ensures n <= FULL_BLOCK ==> ENCODED_BLOCK_SIZES[n] <= FULL_ENCODED_BLOCK && DecodedSize(ENCODED_BLOCK_SIZES[n]) == Some(n)
  {
  }

  /** So many letters are enough for so many bytes. */
  lemma {:induction false} LettersSuffice(n: nat)
    requires n <= FULL_BLOCK
    ensures Pow(256, n) <= Pow(ALPHABET_SIZE, ENCODED_BLOCK_SIZES[n])
  {
    PowersOf58();
    PowersOf256();
  }

  lemma {:induction false} PowersOf58()
    ensures Pow(58, 0) == 1 && Pow(58, 2) == 3364 && Pow(58, 3) == 195112 && Pow(58, 5) == 656356768
    ensures Pow(58, 6) == 38068692544 && Pow(58, 7) == 2207984167552 && Pow(58, 9) == 7427658739644928
    ensures Pow(58, 10) == 430804206899405824 && Pow(58, 11) == 24986644000165537792
  {
    assert Pow(58, 1) == 58;
    assert Pow(58, 2) == 3364;
    assert Pow(58, 3) == 195112;
    assert Pow(58, 4) == 11316496;
    assert Pow(58, 5) == 656356768;
    assert Pow(58, 6) == 38068692544;
    assert Pow(58, 7) == 2207984167552;
    assert Pow(58, 8) == 128063081718016;
    assert Pow(58, 9) == 7427658739644928;
    assert Pow(58, 10) == 430804206899405824;
  }

  lemma {:induction false} PowersOf256()
    ensures Pow(256, 0) == 1 && Pow(256, 1) == 256 && Pow(256, 2) == 65536 && Pow(256, 3) == 16777216
    ensures Pow(256, 4) == 4294967296 && Pow(256, 5) == 1099511627776 && Pow(256, 6) == 281474976710656
    ensures Pow(256, 7) == 72057594037927936 && Pow(256, 8) == TWO_64
  {
    assert Pow(256, 1) == 256;
    assert Pow(256, 2) == 65536;
    assert Pow(256, 3) == 16777216;
    assert Pow(256, 4) == 4294967296;
    assert Pow(256, 5) == 1099511627776;
    assert Pow(256, 6) == 281474976710656;
    assert Pow(256, 7) == 72057594037927936;
  }

  /** A block as a number, written with the letters of its size. */
  function BlockText(block: seq<Byte>): (s: string)
    requires |block| <= FULL_BLOCK
    ensures |s| == ENCODED_BLOCK_SIZES[|block|]
  {
    Spelt(Digits(Value(block, 256), ALPHABET_SIZE, ENCODED_BLOCK_SIZES[|block|]))
  }

  /** The block a text stands for, unless its size, a letter or its value is wrong. */
  function BlockData(s: string): (r: Option<seq<Byte>>)
    requires |s| <= FULL_ENCODED_BLOCK
  {
    var size := DecodedSize(|s|);
    var ds := Unspelt(s);
    if size.None? || size.value == 0 || ds.None? then None
    else
      var v := Value(ds.value, ALPHABET_SIZE);
      if v >= Pow(256, size.value) then None else Some(Digits(v, 256, size.value))
  }

  lemma {:induction false} BlockDataOfText(block: seq<Byte>)
    requires 0 < |block| <= FULL_BLOCK
    ensures BlockData(BlockText(block)) == Some(block)
  {
    var n, v := |block|, Value(block, 256);
    DigitsOfValue(block, 256);
    LettersSuffice(n);
    SizesMatch(n);
    UnspeltSpelt(Digits(v, ALPHABET_SIZE, ENCODED_BLOCK_SIZES[n]));
    ValueOfDigits(v, ALPHABET_SIZE, ENCODED_BLOCK_SIZES[n]);
  }

  lemma {:induction false} BlockTextOfData(s: string)
    requires |s| <= FULL_ENCODED_BLOCK && BlockData(s).Some?
    ensures var block := BlockData(s).value; 0 < |block| <= FULL_BLOCK && BlockText(block) == s
  {
    SizesMatch(|s|);
    var ds := Unspelt(s).value;
    var v := Value(ds, ALPHABET_SIZE);
    ValueOfDigits(v, 256, DecodedSize(|s|).value);
    DigitsOfValue(ds, ALPHABET_SIZE);
  }

  // ---- whole texts ----

  function Encode(data: seq<Byte>): string {
    if |data| < FULL_BLOCK then BlockText(data)
    else BlockText(data[..FULL_BLOCK]) + Encode(data[FULL_BLOCK..])
  }

  function Decode(s: string): Option<seq<Byte>> {
    if s == [] then Some([])
    else if |s| < FULL_ENCODED_BLOCK then BlockData(s)
    else
      var head := BlockData(s[..FULL_ENCODED_BLOCK]);
      var tail := Decode(s[FULL_ENCODED_BLOCK..]);
      if head.None? || tail.None? then None else Some(head.value + tail.value)
  }

  /** Decoding undoes encoding, for all data. */
  lemma {:induction false} DecodeInvertsEncode(data: seq<Byte>)
    ensures Decode(Encode(data)) == Some(data)
    decreases |data|
  {
    hide BlockText, BlockData;
    if data == [] {
      assert Encode(data) == BlockText([]);
    } else if |data| < FULL_BLOCK {
      BlockDataOfText(data);
    } else {
      var head, tail := data[..FULL_BLOCK], data[FULL_BLOCK..];
      BlockDataOfText(head);
      DecodeInvertsEncode(tail);
      var s := Encode(data);
      assert s[..FULL_ENCODED_BLOCK] == BlockText(head) && s[FULL_ENCODED_BLOCK..] == Encode(tail);
      assert head + tail == data;
    }
  }

  /** Whatever decodes is the encoding of what it decodes to: no data has a second text. */
  lemma {:induction false} EncodeInvertsDecode(s: string)
    requires Decode(s).Some?
    ensures Encode(Decode(s).value) == s
    decreases |s|
  {
    hide BlockText, BlockData;
    if s == [] {
      assert BlockText([]) == [];
    } else if |s| < FULL_ENCODED_BLOCK {
      BlockTextOfData(s);
      SizesMatch(|BlockData(s).value|);
    } else {
      var head, tail := s[..FULL_ENCODED_BLOCK], s[FULL_ENCODED_BLOCK..];
      BlockTextOfData(head);
      EncodeInvertsDecode(tail);
      var block, rest := BlockData(head).value, Decode(tail).value;
      SizesMatch(|block|);
      assert |block| == FULL_BLOCK;
      assert (block + rest)[..FULL_BLOCK] == block && (block + rest)[FULL_BLOCK..] == rest;
      assert head + tail == s;
    }
  }

  // ---- the loops ----

  lemma {:induction false} DigitsOfZero(n: nat)
    ensures forall i :: 0 <= i < n ==> Digits(0, ALPHABET_SIZE, n)[i] == 0
  {
    if n > 0 { DigitsOfZero(n - 1); }
  }

  lemma {:induction false} LastDigit(num: nat, n: nat)
    requires 0 < num < Pow(ALPHABET_SIZE, n)
    ensures n > 0 && num / ALPHABET_SIZE < Pow(ALPHABET_SIZE, n - 1)
    ensures Digits(num, ALPHABET_SIZE, n)[n - 1] == num % ALPHABET_SIZE
    ensures Digits(num, ALPHABET_SIZE, n)[..n - 1] == Digits(num / ALPHABET_SIZE, ALPHABET_SIZE, n - 1)
  {
    if n > 0 {
      DivisionBound(num, ALPHABET_SIZE, Pow(ALPHABET_SIZE, n - 1));
    }
  }

  /** Big-endian bytes as a number. */
  method BytesToNumber(data: seq<Byte>) returns (res: nat)
    requires |data| <= FULL_BLOCK
    ensures res == Value(data, 256)
  {
    res := 0;
    for i := 0 to |data|
      invariant res == Value(data[..i], 256)
    {
      assert data[..i + 1][..i] == data[..i];
      res := res * 256 + data[i];
    }
    assert data[..|data|] == data;
  }

  /** Writes the letters of a block over a stretch of the text that holds only the zero letter. */
  method EncodeBlock(block: seq<Byte>, res: array<char>, at: nat)
    requires 0 < |block| <= FULL_BLOCK && at + ENCODED_BLOCK_SIZES[|block|] <= res.Length
    requires forall k :: at <= k < at + ENCODED_BLOCK_SIZES[|block|] ==> res[k] == Letter(0)
    modifies res
    ensures res[at..at + ENCODED_BLOCK_SIZES[|block|]] == BlockText(block)
    ensures res[..at] == old(res[..at])
    ensures forall k :: 0 <= k < at || at + ENCODED_BLOCK_SIZES[|block|] <= k < res.Length ==> res[k] == old(res[k])
  {
    hide Letter, Spelt, Digits, Pow, Value;
    var n := ENCODED_BLOCK_SIZES[|block|];
    var num: nat := BytesToNumber(block);
    ghost var ds := Digits(num, ALPHABET_SIZE, n);
    DigitsOfValue(block, 256);
    LettersSuffice(|block|);
    var i := n;
    while 0 < num
      invariant 0 <= i <= n && num < Pow(ALPHABET_SIZE, i)
      invariant ds[..i] == Digits(num, ALPHABET_SIZE, i)
      invariant forall k :: at <= k < at + i ==> res[k] == Letter(0)
      invariant forall k :: at + i <= k < at + n ==> res[k] == Letter(ds[k - at])
      invariant forall k :: 0 <= k < at || at + n <= k < res.Length ==> res[k] == old(res[k])
      decreases num
    {
      LastDigit(num, i);
      assert ds[i - 1] == ds[..i][i - 1];
      assert ds[..i - 1] == ds[..i][..i - 1];
      var remainder := num % ALPHABET_SIZE;
      num := num / ALPHABET_SIZE;
      i := i - 1;
      res[at + i] := Letter(remainder);
    }
    DigitsOfZero(i);
    assert forall k :: 0 <= k < i ==> ds[k] == ds[..i][k] == 0;
    assert res[at..at + n] == Spelt(ds);
  }

  /**
   * Adds up the letters from the right in 64-bit words, and gives up at the first unknown
   * letter or the first sum that does not fit.
   */
  method SumOfLetters(block: string) returns (sum: Option<nat>)
    requires |block| <= FULL_ENCODED_BLOCK
    ensures match Unspelt(block)
      case None => sum == None
      case Some(ds) =>
        sum == if Value(ds, ALPHABET_SIZE) < TWO_64 then Some(Value(ds, ALPHABET_SIZE)) else None
  {
    hide Unspelt, Value, Spelt, Letter, Pow, IntUtil.Wrap, DigitOf;
    var resNum, order := 0, 1;
    var i := |block|;
    OrderFits(0);
    EmptyValue(ALPHABET_SIZE);
    ghost var ds: seq<nat> := [];
    while i > 0
      invariant 0 <= i <= |block| && |ds| == |block| - i && Below(ds, ALPHABET_SIZE) && Spelt(ds) == block[i..]
      invariant resNum == Value(ds, ALPHABET_SIZE) < TWO_64
      invariant i > 0 ==> order == Pow(ALPHABET_SIZE, |ds|) < TWO_64
      decreases i
    {
      var digit := DigitOf(block[i - 1]);
      if digit.None? {
        UnspeltNone(block, i - 1);
        return None;
      }
      ghost var longer := [digit.value] + ds;
      ghost var product := LetterWeight(ds, digit.value, order);
      var lo, hi := IntUtil.Mul128(order, digit.value);
      var tmp := IntUtil.Wrap(resNum + lo);
      SumFits(resNum, product, lo, hi);
      assert Spelt(longer) == block[i - 1..];
      if tmp < resNum || hi != 0 {
        TooBigStays(block, i - 1, longer);
        return None;
      }
      ds := longer;
      resNum := tmp;
      i := i - 1;
      if i > 0 { OrderFits(|ds|); }
      order := IntUtil.Wrap(order * ALPHABET_SIZE);
    }
    assert block[0..] == block;
    UnspeltSpelt(ds);
    return Some(resNum);
  }

  lemma {:induction false} LetterWeight(ds: seq<nat>, digit: nat, order: nat) returns (product: nat)
    requires order == Pow(ALPHABET_SIZE, |ds|)
    ensures product == order * digit && Value([digit] + ds, ALPHABET_SIZE) == product + Value(ds, ALPHABET_SIZE)
  {
    product := order * digit;
    ValueCons([digit] + ds, ALPHABET_SIZE);
    assert ([digit] + ds)[1..] == ds;
  }

  /** The test for overflow is exact, and a sum that passes it did not wrap. */
  lemma {:induction false} SumFits(sum: nat, product: nat, lo: nat, hi: nat)
    requires hi * TWO_64 + lo == product && sum < TWO_64 && lo < TWO_64
    ensures var tmp := IntUtil.Wrap(sum + lo);
      if tmp < sum || hi != 0 then sum + product >= TWO_64 else tmp == sum + product
  {
    IntUtil.CarryIsExact(sum, lo);
  }

  /** The weight of every letter of a block fits in a word. */
  lemma {:induction false} OrderFits(n: nat)
    requires n < FULL_ENCODED_BLOCK
    ensures Pow(ALPHABET_SIZE, n) < TWO_64
    ensures if n == 0 then Pow(ALPHABET_SIZE, n) == 1 else Pow(ALPHABET_SIZE, n) == Pow(ALPHABET_SIZE, n - 1) * ALPHABET_SIZE
  {
    PowersOf58();
    PowMonotone(ALPHABET_SIZE, n, FULL_ENCODED_BLOCK - 1);
  }

  lemma {:induction false} UnspeltNone(s: string, i: nat)
    requires i < |s| && DigitOf(s[i]).None?
    ensures Unspelt(s) == None
  {
  }

  /** More letters in front never make a number smaller. */
  lemma {:induction false} TooBigStays(s: string, i: nat, ds: seq<nat>)
    requires i <= |s| && Below(ds, ALPHABET_SIZE) && Spelt(ds) == s[i..] && Value(ds, ALPHABET_SIZE) >= TWO_64
    ensures Unspelt(s).Some? ==> Value(Unspelt(s).value, ALPHABET_SIZE) >= TWO_64
  {
    hide Unspelt, Value, Spelt, Letter;
    if Unspelt(s).Some? {
      var all := Unspelt(s).value;
      assert Spelt(all[i..]) == s[i..];
      UnspeltSpelt(ds);
      UnspeltSpelt(all[i..]);
      ValueOfSuffix(all, i, ALPHABET_SIZE);
    }
  }

  lemma {:induction false} BlockRange(n: nat)
    requires n <= FULL_BLOCK
    ensures Pow(256, n) <= TWO_64 && (n == FULL_BLOCK ==> Pow(256, n) == TWO_64)
  {
    PowersOf256();
    PowMonotone(256, n, FULL_BLOCK);
  }

  method DecodeBlock(block: string, res: array<Byte>, at: nat) returns (ok: bool)
    requires 0 < |block| <= FULL_ENCODED_BLOCK
    requires DecodedSize(|block|).Some? ==> at + DecodedSize(|block|).value <= res.Length
    modifies res
    ensures ok == BlockData(block).Some?
    ensures ok ==> at + |BlockData(block).value| <= res.Length
    ensures ok ==> res[at..at + |BlockData(block).value|] == BlockData(block).value
    ensures forall k :: 0 <= k < res.Length && !(ok && at <= k < at + |BlockData(block).value|) ==> res[k] == old(res[k])
  {
    hide Letter, Unspelt, Digits, Pow, Value;
    var size := DecodedSize(|block|);
    if size.None? || size.value <= 0 {
      return false;
    }
    var sum := SumOfLetters(block);
    BlockRange(size.value);
    if sum.None? {
      return false;
    }
    if size.value < FULL_BLOCK && Pow(256, size.value) <= sum.value {
      return false;
    }
    var bytes: seq<Byte> := Digits(sum.value, 256, size.value);
    for i := 0 to size.value
      invariant forall k :: at <= k < at + i ==> res[k] == bytes[k - at]
      invariant forall k :: 0 <= k < res.Length && !(at <= k < at + i) ==> res[k] == old(res[k])
    {
      res[at + i] := bytes[i];
    }
    assert res[at..at + size.value] == bytes;
    ok := true;
  }

  lemma {:induction false} EncodeStep(data: seq<Byte>, k: nat)
    requires k + FULL_BLOCK <= |data|
    ensures Encode(data[k..]) == BlockText(data[k..k + FULL_BLOCK]) + Encode(data[k + FULL_BLOCK..])
  {
    assert data[k..][..FULL_BLOCK] == data[k..k + FULL_BLOCK];
    assert data[k..][FULL_BLOCK..] == data[k + FULL_BLOCK..];
  }

  method EncodeText(data: seq<Byte>) returns (text: string)
    ensures text == Encode(data)
  {
    hide BlockText, Encode, Letter;
    EncodeShort([]);
    if data == [] {
      return [];
    }
    var full, last := |data| / FULL_BLOCK, |data| % FULL_BLOCK;
    var lastSize := ENCODED_BLOCK_SIZES[last];
    var res := new char[full * FULL_ENCODED_BLOCK + lastSize](_ => Letter(0));
    assert data[0..] == data;
    for i := 0 to full
      invariant res[..i * FULL_ENCODED_BLOCK] + Encode(data[i * FULL_BLOCK..]) == Encode(data)
      invariant forall k :: i * FULL_ENCODED_BLOCK <= k < res.Length ==> res[k] == Letter(0)
    {
      var block, at := data[i * FULL_BLOCK..i * FULL_BLOCK + FULL_BLOCK], i * FULL_ENCODED_BLOCK;
      ghost var before := res[..at];
      EncodeStep(data, i * FULL_BLOCK);
      EncodeBlock(block, res, at);
      assert res[..at + FULL_ENCODED_BLOCK][..at] == before;
      Extend(before, res[..at + FULL_ENCODED_BLOCK], BlockText(block), Encode(data[(i + 1) * FULL_BLOCK..]));
    }
    var rest := data[full * FULL_BLOCK..];
    EncodeShort(rest);
    if 0 < last {
      ghost var before := res[..full * FULL_ENCODED_BLOCK];
      EncodeBlock(rest, res, full * FULL_ENCODED_BLOCK);
      Extend(before, res[..], BlockText(rest), []);
    }
    assert rest == [] || res[..] == Encode(data);
    text := res[..];
  }

  lemma {:induction false} EncodeShort(data: seq<Byte>)
    requires |data| < FULL_BLOCK
    ensures Encode(data) == BlockText(data) && Encode([]) == []
  {
  }

  lemma {:induction false} Extend<T>(before: seq<T>, after: seq<T>, block: seq<T>, rest: seq<T>)
    requires |after| == |before| + |block| && after[..|before|] == before && after[|before|..] == block
    ensures after == before + block && before + (block + rest) == after + rest
  {
    assert after == before + block;
  }

  /** What a decoding yields when earlier blocks gave the bytes in front. */
  function After(front: seq<Byte>, rest: Option<seq<Byte>>): Option<seq<Byte>> {
    if rest.None? then None else Some(front + rest.value)
  }

  lemma {:induction false} FrontEmpty(front: seq<Byte>, rest: Option<seq<Byte>>)
    requires front == []
    ensures After(front, rest) == rest
  {
    if rest.Some? { assert front + rest.value == rest.value; }
  }

  lemma {:induction false} DecodeStep(text: string, k: nat, front: seq<Byte>)
    requires k + FULL_ENCODED_BLOCK <= |text|
    ensures var block := BlockData(text[k..k + FULL_ENCODED_BLOCK]);
      After(front, Decode(text[k..])) ==
        if block.None? then None else After(front + block.value, Decode(text[k + FULL_ENCODED_BLOCK..]))
  {
    assert text[k..][..FULL_ENCODED_BLOCK] == text[k..k + FULL_ENCODED_BLOCK];
    assert text[k..][FULL_ENCODED_BLOCK..] == text[k + FULL_ENCODED_BLOCK..];
    var block, rest := BlockData(text[k..k + FULL_ENCODED_BLOCK]), Decode(text[k + FULL_ENCODED_BLOCK..]);
    if block.Some? && rest.Some? {
      assert front + (block.value + rest.value) == front + block.value + rest.value;
    }
  }

  lemma {:induction false} DecodeLast(text: string, front: seq<Byte>)
    requires |text| < FULL_ENCODED_BLOCK
    ensures text == [] ==> After(front, Decode(text)) == Some(front)
    ensures text != [] ==> After(front, Decode(text)) == After(front, BlockData(text))
    ensures text != [] && DecodedSize(|text|).None? ==> BlockData(text).None?
  {
    assert front + [] == front;
  }

  lemma {:induction false} FullBlockSize(text: string)
    requires |text| == FULL_ENCODED_BLOCK && BlockData(text).Some?
    ensures |BlockData(text).value| == FULL_BLOCK
  {
  }

  lemma {:induction false} BadLength(text: string)
    requires DecodedSize(|text| % FULL_ENCODED_BLOCK).None?
    ensures Decode(text).None?
    decreases |text|
  {
    if |text| >= FULL_ENCODED_BLOCK {
      assert |text[FULL_ENCODED_BLOCK..]| % FULL_ENCODED_BLOCK == |text| % FULL_ENCODED_BLOCK;
      BadLength(text[FULL_ENCODED_BLOCK..]);
    }
  }

  method DecodeText(enc: string) returns (result: Option<seq<Byte>>)
    ensures result == Decode(enc)
  {
    hide BlockData, Decode;
    if enc == [] {
      DecodeLast(enc, []);
      return Some([]);
    }
    var full, last := |enc| / FULL_ENCODED_BLOCK, |enc| % FULL_ENCODED_BLOCK;
    var lastSize := DecodedSize(last);
    if lastSize.None? {
      BadLength(enc);
      return None;
    }
    var data := new Byte[full * FULL_BLOCK + lastSize.value];
    FrontEmpty(data[..0], Decode(enc));
    assert enc[0..] == enc;
    for i := 0 to full
      invariant After(data[..i * FULL_BLOCK], Decode(enc[i * FULL_ENCODED_BLOCK..])) == Decode(enc)
    {
      var at := i * FULL_BLOCK;
      var block := enc[i * FULL_ENCODED_BLOCK..i * FULL_ENCODED_BLOCK + FULL_ENCODED_BLOCK];
      ghost var before := data[..at];
      DecodeStep(enc, i * FULL_ENCODED_BLOCK, before);
      var ok := DecodeBlock(block, data, at);
      if !ok {
        return None;
      }
      FullBlockSize(block);
      Extend(before, data[..at + FULL_BLOCK], BlockData(block).value, []);
    }
    var rest := enc[full * FULL_ENCODED_BLOCK..];
    ghost var before := data[..full * FULL_BLOCK];
    DecodeLast(rest, before);
    if 0 < last {
      var ok := DecodeBlock(rest, data, full * FULL_BLOCK);
      if !ok {
        return None;
      }
      LastBlockSize(rest);
      Extend(before, data[..], BlockData(rest).value, []);
    }
    assert last == 0 ==> data[..] == before;
    result := Some(data[..]);
  }

  lemma {:induction false} LastBlockSize(text: string)
    requires |text| <= FULL_ENCODED_BLOCK && BlockData(text).Some?
    ensures DecodedSize(|text|) == Some(|BlockData(text).value|)
  {
  }

  // ---- addresses ----

  /** A checksum is the first four bytes of a hash. */
  ghost predicate IsChecksum(checksum: seq<Byte> -> seq<Byte>) {
    forall b :: |checksum(b)| == CHECKSUM_SIZE
  }

  function EncodeAddr(checksum: seq<Byte> -> seq<Byte>, tag: nat, data: seq<Byte>): string {
    var buf := Write(tag) + data;
    Encode(buf + checksum(buf))
  }

  /** The tag and data of a payload; the reader does not say whether the tag was terminated. */
  function Opened(payload: seq<Byte>): Option<(nat, seq<Byte>)> {
    match Read(payload, 64, true)
    case Done(tag, n) => if n <= |payload| then Some((tag, payload[n..])) else None
    case Unterminated(tag, n) => if 0 < n <= |payload| then Some((tag, payload[n..])) else None
    case Overflow => None
    case NonCanonical => None
  }

  function DecodeAddr(checksum: seq<Byte> -> seq<Byte>, addr: string): Option<(nat, seq<Byte>)> {
    match Decode(addr)
    case None => None
    case Some(all) =>
      if |all| <= CHECKSUM_SIZE then None
      else
        var payload, sum := all[..|all| - CHECKSUM_SIZE], all[|all| - CHECKSUM_SIZE..];
        if checksum(payload) != sum then None else Opened(payload)
  }

  lemma {:induction false} DecodeAddrOf(checksum: seq<Byte> -> seq<Byte>, payload: seq<Byte>)
    requires IsChecksum(checksum) && payload != []
    ensures DecodeAddr(checksum, Encode(payload + checksum(payload))) == Opened(payload)
  {
    var all := payload + checksum(payload);
    DecodeInvertsEncode(all);
    assert |checksum(payload)| == CHECKSUM_SIZE;
    assert all[..|all| - CHECKSUM_SIZE] == payload && all[|all| - CHECKSUM_SIZE..] == checksum(payload);
  }

  /** An address gives back its 64-bit tag and its data. */
  lemma {:induction false} DecodeAddrInverts(checksum: seq<Byte> -> seq<Byte>, tag: nat, data: seq<Byte>)
    requires IsChecksum(checksum) && tag < Pow(2, 64)
    ensures DecodeAddr(checksum, EncodeAddr(checksum, tag, data)) == Some((tag, data))
  {
    var buf := Write(tag) + data;
    DecodeAddrOf(checksum, buf);
    ReadInvertsWrite(tag, 64, true, data);
    assert buf[|Write(tag)|..] == data;
  }

  /** What a text holds before its checksum, when it decodes. */
  function PayloadOf(addr: string): seq<Byte> {
    match Decode(addr)
    case None => []
    case Some(all) => if |all| <= CHECKSUM_SIZE then [] else all[..|all| - CHECKSUM_SIZE]
  }

  /**
   * An accepted address is the address of what it decodes to exactly when some byte of its
   * payload ends a number, that is, has its top bit clear.
   */
  lemma {:induction false} AcceptedAddrIff(checksum: seq<Byte> -> seq<Byte>, addr: string)
    requires IsChecksum(checksum) && DecodeAddr(checksum, addr).Some?
    ensures var (tag, data) := DecodeAddr(checksum, addr).value;
      EncodeAddr(checksum, tag, data) == addr <==> exists i :: 0 <= i < |PayloadOf(addr)| && PayloadOf(addr)[i] < 128
  {
    hide Encode, Decode, Read, Write, Pow;
    var payload := PayloadOf(addr);
    var all := Decode(addr).value;
    EncodeInvertsDecode(addr);
    assert all == payload + checksum(payload);
    var (tag, data) := DecodeAddr(checksum, addr).value;
    UnterminatedIff(payload, 64, true);
    if Read(payload, 64, true).Done? {
      AcceptedIsWritten(payload, 64, true);
      assert payload == Write(tag) + data;
      LastByteEnds(tag);
      assert payload[|Write(tag)| - 1] < 128;
    } else {
      UnterminatedReadsAll(payload, 64, true);
      var buf := Write(tag) + data;
      DecodeInvertsEncode(buf + checksum(buf));
      LastByteEnds(tag);
      assert data == [] && buf == Write(tag);
      assert |checksum(buf)| == |checksum(payload)|;
      SameFront(buf, checksum(buf), payload, checksum(payload));
    }
  }

  lemma {:induction false} SameFront(a: seq<Byte>, x: seq<Byte>, b: seq<Byte>, y: seq<Byte>)
    requires |x| == |y|
    ensures a + x == b + y ==> a == b
  {
    if a + x == b + y {
      assert a == (a + x)[..|a|];
      assert b == (b + y)[..|b|];
    }
  }

  lemma {:induction false} LastByteEnds(v: nat)
    ensures Write(v)[|Write(v)| - 1] < 128
  {
    if v >= 128 { LastByteEnds(v / 128); }
  }

  lemma {:induction false} UnterminatedReadsAll(s: seq<Byte>, bits: nat, first: bool)
    requires Read(s, bits, first).Unterminated?
    ensures Read(s, bits, first).length == |s|
    decreases |s|
  {
    if s != [] { UnterminatedReadsAll(s[1..], Sub7(bits), false); }
  }

  /** The address whose payload is the single byte 0x80 is accepted as tag 0 without data, whatever the hash. */
  lemma {:induction false} UnterminatedTagAccepted(checksum: seq<Byte> -> seq<Byte>)
    requires IsChecksum(checksum)
    ensures var addr := Encode([128] + checksum([128]));
      DecodeAddr(checksum, addr) == Some((0, [])) && EncodeAddr(checksum, 0, []) != addr
  {
    hide Encode, Decode;
    var payload: seq<Byte> := [128];
    var addr := Encode(payload + checksum(payload));
    DecodeAddrOf(checksum, payload);
    assert payload[1..] == [];
    assert Pow(2, 64) > 128 by { PowMonotone(2, 8, 64); Pow2Of7(); }
    assert Read(payload, 64, true) == Unterminated(0, 1);
    DecodeInvertsEncode(payload + checksum(payload));
    assert PayloadOf(addr) == payload by {
      assert |checksum(payload)| == CHECKSUM_SIZE;
      assert (payload + checksum(payload))[..1] == payload;
    }
    AcceptedAddrIff(checksum, addr);
  }
}
