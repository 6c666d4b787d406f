/**
 * Variable-length integers: seven bits a byte, low bits first, the top bit set on every
 * byte but the last. One writer, and two readers that differ only at the end of input.
 */
module Varint {
  import opened Powers

  type Byte = b: nat | b < 256

  function Write(v: nat): (s: seq<Byte>)
    ensures s != []
  {
    if v >= 128 then [v % 128 + 128] + Write(v / 128) else [v]
  }

  /** Unterminated carries what was read when the input ran out. */
  datatype Reading = Done(value: nat, length: nat) | Overflow | NonCanonical | Unterminated(value: nat, length: nat)

  /** Reading the bytes of a number that has room bits left; first says that no byte was read yet. */
  function Read(s: seq<Byte>, room: nat, first: bool): Reading
    decreases |s|
  {
    if s == [] then Unterminated(0, 0)
    else
      var b := s[0];
      if room <= 7 && b >= Pow(2, room) then Overflow
      else if b == 0 && !first then NonCanonical
      else if b < 128 then Done(b, 1)
      else
        More(b, Read(s[1..], Sub7(room), false))
  }

  function Sub7(room: nat): nat {
    if room >= 7 then room - 7 else 0
  }

  /** The reading that continues with a further byte in front. */
  function More(b: Byte, r: Reading): Reading {
    match r
    case Done(v, n) => Done(b % 128 + 128 * v, n + 1)
    case Unterminated(v, n) => Unterminated(b % 128 + 128 * v, n + 1)
    case Overflow => Overflow
    case NonCanonical => NonCanonical
  }

  lemma {:induction false} PowByte(room: nat)
    ensures Pow(2, 7) == 128
    ensures room >= 7 ==> Pow(2, room) == 128 * Pow(2, room - 7)
    ensures room < 7 ==> Pow(2, room) < 128
  {
    Pow2Of7();
    if room >= 7 {
      PowAdd(2, 7, room - 7);
    } else {
      PowMonotone(2, room, 6);
    }
  }

  // ---- round trips ----

  /** Every number that fits is read back from its own writing, whatever follows. */
  lemma {:induction false} ReadInvertsWrite(v: nat, room: nat, first: bool, rest: seq<Byte>)
    requires v < Pow(2, room) && (v > 0 || first)
    ensures Read(Write(v) + rest, room, first) == Done(v, |Write(v)|)
    decreases v
  {
    PowByte(room);
    var s := Write(v) + rest;
    if v >= 128 {
      assert s[1..] == Write(v / 128) + rest;
      ReadInvertsWrite(v / 128, room - 7, false, rest);
    }
  }

  /** Whatever is accepted is the one writing of its value, and the value fits. */
  lemma {:induction false} AcceptedIsWritten(s: seq<Byte>, room: nat, first: bool)
    requires Read(s, room, first).Done?
    ensures var Done(v, n) := Read(s, room, first);
      v < Pow(2, room) && n <= |s| && s[..n] == Write(v) && (v > 0 || first)
    decreases |s|
  {
    PowByte(room);
    var b := s[0];
    if b >= 128 {
      AcceptedIsWritten(s[1..], Sub7(room), false);
      var Done(v, n) := Read(s[1..], Sub7(room), false);
      assert s[..n + 1] == [b] + s[1..][..n];
      assert (b % 128 + 128 * v) / 128 == v;
    } else {
      assert s[..1] == [b];
    }
  }

  /** The reader accepts exactly the inputs that begin with the writing of a number that fits. */
  lemma {:induction false} AcceptsExactly(s: seq<Byte>, bits: nat, v: nat)
    ensures (exists n :: Read(s, bits, true) == Done(v, n)) <==> v < Pow(2, bits) && Write(v) <= s
  {
    if v < Pow(2, bits) && Write(v) <= s {
      ReadInvertsWrite(v, bits, true, s[|Write(v)|..]);
      assert s == Write(v) + s[|Write(v)|..];
    }
    if exists n :: Read(s, bits, true) == Done(v, n) {
      AcceptedIsWritten(s, bits, true);
    }
  }

  /** What the first n bytes say: seven bits each, every byte worth 128 times the one before it. */
  function Worth(s: seq<Byte>, n: nat): nat
    requires n <= |s|
  {
    if n == 0 then 0 else Worth(s, n - 1) + s[n - 1] % 128 * Pow(128, n - 1)
  }

  lemma {:induction false} Scale(x: nat, k: nat)
    ensures x * Pow(128, k + 1) == 128 * (x * Pow(128, k))
  {
    var p := Pow(128, k);
    assert Pow(128, k + 1) == 128 * p;
    assert x * (128 * p) == 128 * (x * p);
  }

  lemma {:induction false} WorthFromFront(s: seq<Byte>, n: nat)
    requires 0 < n <= |s|
    ensures Worth(s, n) == s[0] % 128 + 128 * Worth(s[1..], n - 1)
  {
    if n > 1 {
      WorthFromFront(s, n - 1);
      assert s[1..][n - 2] == s[n - 1];
      Scale(s[n - 1] % 128, n - 2);
    }
  }

  /** The bytes written for a number: all but the last have the top bit, and together they are worth the number. */
  lemma {:induction false} WriteMeans(v: nat)
    ensures var s := Write(v);
      && s[|s| - 1] < 128 && (forall i :: 0 <= i < |s| - 1 ==> s[i] >= 128)
      && Worth(s, |s|) == v
  {
    hide Worth;
    var s := Write(v);
    WorthFromFront(s, |s|);
    if v >= 128 {
      WriteMeans(v / 128);
      assert s[1..] == Write(v / 128);
      assert forall i :: 1 <= i < |s| ==> s[i] == s[1..][i - 1];
    } else {
      NothingWorth(s[1..]);
    }
  }

  lemma {:induction false} NothingWorth(s: seq<Byte>)
    ensures Worth(s, 0) == 0
  {
  }

  /** No number is a prefix of another, so a stream of numbers splits one way only. */
  lemma {:induction false} WritingsArePrefixFree(v: nat, w: nat)
    requires Write(v) <= Write(w)
    ensures v == w
    decreases v
  {
    assert Write(v)[0] == Write(w)[0];
    if v >= 128 {
      assert Write(v)[1..] == Write(v / 128) && Write(w)[1..] == Write(w / 128);
      WritingsArePrefixFree(v / 128, w / 128);
    }
  }

  // ---- lengths ----

  /** Seven bits a byte: n bytes suffice exactly for the numbers below 2^(7n). */
  lemma {:induction false} LengthIff(v: nat, n: nat)
    ensures n > 0 ==> (|Write(v)| <= n <==> v < Pow(2, 7 * n))
    decreases v
  {
    if n > 0 {
      PowByte(7 * n);
      var p := Pow(2, 7 * n - 7);
      if v >= 128 {
        LengthIff(v / 128, n - 1);
        assert v < 128 * p <==> v / 128 < p;
        if n == 1 { assert p == 1; }
      }
    }
  }

  // ---- refusals ----

  /** How many bytes a number of so many bits can take. */
  function Longest(bits: nat): nat {
    if bits <= 7 then 1 else 1 + Longest(bits - 7)
  }

  /** The bytes before the last possible one all ask for more, and the last one has a bit too many. */
  predicate TooBig(s: seq<Byte>, bits: nat) {
    var k := Longest(bits);
    && |s| >= k && (forall i :: 0 <= i < k - 1 ==> s[i] >= 128)
    && 7 * (k - 1) <= bits && s[k - 1] >= Pow(2, bits - 7 * (k - 1))
  }

  lemma {:induction false} LongestRange(bits: nat)
    ensures 7 * (Longest(bits) - 1) <= bits <= 7 * Longest(bits)
  {
    if bits > 7 { LongestRange(bits - 7); }
  }

  /** A number of so many bits never takes more bytes than that. */
  lemma {:induction false} FitsInLongest(v: nat, bits: nat)
    requires v < Pow(2, bits)
    ensures |Write(v)| <= Longest(bits)
  {
    LongestRange(bits);
    PowMonotone(2, bits, 7 * Longest(bits));
    LengthIff(v, Longest(bits));
  }

  lemma {:induction false} OverflowIff(s: seq<Byte>, bits: nat, first: bool)
    requires bits > 0 || first
    ensures Read(s, bits, first) == Overflow <==> TooBig(s, bits)
    decreases |s|
  {
    LongestRange(bits);
    PowByte(bits);
    if s != [] && bits > 7 {
      OverflowIff(s[1..], bits - 7, false);
      assert Longest(bits) == 1 + Longest(bits - 7);
      if TooBig(s[1..], bits - 7) && s[0] >= 128 {
        assert forall i :: 0 < i < Longest(bits) - 1 ==> s[i] == s[1..][i - 1];
      }
      if TooBig(s, bits) {
        assert s[0] >= 128;
        assert forall i :: 0 <= i < Longest(bits) - 2 ==> s[1..][i] == s[i + 1];
      }
    }
  }

  /** Overflow means what it says: every number whose writing shares those bytes is too big. */
  lemma {:induction false} OverflowMeansTooBig(s: seq<Byte>, bits: nat, v: nat)
    requires Read(s, bits, true) == Overflow
    requires |s| >= Longest(bits) && s[..Longest(bits)] <= Write(v)
    ensures v >= Pow(2, bits)
  {
    OverflowIff(s, bits, true);
    var k := Longest(bits);
    var w := Write(v);
    assert forall i :: 0 <= i < k ==> w[i] == s[..k][i] == s[i];
    assert TooBig(w, bits);
    OverflowIff(w, bits, true);
    assert w + [] == w;
    if v < Pow(2, bits) {
      ReadInvertsWrite(v, bits, true, []);
    }
  }

  // ---- the loops ----

  method WriteVarint(v: nat) returns (dest: seq<Byte>)
    ensures dest == Write(v)
  {
    hide Write;
    dest := [];
    var i := v;
    while i >= 0x80
      invariant Write(v) == dest + Write(i)
    {
      WriteMore(dest, i);
      dest := dest + [i % 128 + 0x80];
      i := i / 128;
    }
    WriteLast(i);
    dest := dest + [i];
  }

  /** The stream writer: the low byte of the value, with its top bit set. */
  method WriteVarintStream(value: nat) returns (out: seq<Byte>)
    ensures out == Write(value)
  {
    hide Write, WithTopBit;
    out := [];
    var v := value;
    while v >= 0x80
      invariant Write(value) == out + Write(v)
    {
      WriteMore(out, v);
      LowBits(v);
      out := out + [WithTopBit(v % 256)];
      v := v / 128;
    }
    WriteLast(v);
    out := out + [v];
  }

  lemma {:induction false} WriteMore(front: seq<Byte>, v: nat)
    requires v >= 128
    ensures front + Write(v) == front + [v % 128 + 128] + Write(v / 128)
  {
    assert front + ([v % 128 + 128] + Write(v / 128)) == front + [v % 128 + 128] + Write(v / 128);
  }

  lemma {:induction false} WriteLast(v: nat)
    requires v < 128
    ensures Write(v) == [v]
  {
  }

  lemma {:induction false} LowBits(v: nat)
    ensures v % 256 % 128 == v % 128
  {
  }

  /** A byte with its top bit set keeps the seven bits below it. */
  function WithTopBit(b: Byte): (t: Byte)
    ensures t == b % 128 + 128
  {
    if b < 128 then b + 128 else b
  }

  /** A reading that continues after n bytes worth i, each further bit standing for scale. */
  function Prefixed(i: nat, scale: nat, n: nat, r: Reading): Reading {
    match r
    case Done(v, m) => Done(i + scale * v, n + m)
    case Unterminated(v, m) => Unterminated(i + scale * v, n + m)
    case Overflow => Overflow
    case NonCanonical => NonCanonical
  }

  lemma {:induction false} PrefixedMore(i: nat, scale: nat, n: nat, b: Byte, r: Reading)
    ensures Prefixed(i, scale, n, More(b, r)) == Prefixed(i + scale * (b % 128), 128 * scale, n + 1, r)
  {
    if r.Done? || r.Unterminated? {
      var v := r.value;
      assert scale * (b % 128 + 128 * v) == scale * (b % 128) + 128 * scale * v;
    }
  }

  /** One round of reading, spelt out. */
  lemma {:induction false} ReadStep(s: seq<Byte>, room: nat, first: bool)
    ensures Read(s, room, first) ==
      if s == [] then Unterminated(0, 0)
      else if room <= 7 && s[0] >= Pow(2, room) then Overflow
      else if s[0] == 0 && !first then NonCanonical
      else if s[0] < 128 then Done(s[0], 1)
      else More(s[0], Read(s[1..], Sub7(room), false))
  {
  }

  /** After `read` bytes that all asked for more, which gave i, the rest decides. */
  ghost predicate Midway(s: seq<Byte>, bits: nat, i: nat, read: nat) {
    && read <= |s| && 7 * read <= bits
    && Read(s, bits, true) == Prefixed(i, Pow(2, 7 * read), read, Read(s[read..], bits - 7 * read, read == 0))
  }

  lemma {:induction false} MidwayStarts(s: seq<Byte>, bits: nat)
    ensures Midway(s, bits, 0, 0)
  {
    hide Read;
    assert s[0..] == s;
  }

  /** What the next byte, or its absence, means for the whole reading. */
  lemma {:induction false} MidwayNext(s: seq<Byte>, bits: nat, i: nat, read: nat)
    requires Midway(s, bits, i, read)
    ensures
      if read == |s| then Read(s, bits, true) == Unterminated(i, read)
      else if 7 * read + 7 >= bits && s[read] >= Pow(2, bits - 7 * read) then Read(s, bits, true) == Overflow
      else if s[read] == 0 && read != 0 then Read(s, bits, true) == NonCanonical
      else
        var i' := i + Pow(2, 7 * read) * (s[read] % 128);
        if s[read] < 128 then Read(s, bits, true) == Done(i', read + 1) else Midway(s, bits, i', read + 1)
  {
    hide Read, Pow;
    var rest, room := s[read..], bits - 7 * read;
    ReadStep(rest, room, read == 0);
    if read < |s| && s[read] >= 128 {
      PrefixedMore(i, Pow(2, 7 * read), read, s[read], Read(rest[1..], Sub7(room), false));
      PowByte(room);
      PowAdd(2, 7, 7 * read);
      assert rest[1..] == s[read + 1..];
    }
  }

  /**
   * The iterator reader: the number of bytes read, or -1 for overflow, or -2 for a needless zero
   * byte. The end of input is not told apart from the end of the number.
   */
  method ReadVarint(s: seq<Byte>, bits: nat) returns (code: int, i: nat)
    ensures match Read(s, bits, true)
      case Done(v, n) => code == n && i == v
      case Unterminated(v, n) => code == n && i == v
      case Overflow => code == -1
      case NonCanonical => code == -2
  {
    hide Read, Pow;
    var read, shift := 0, 0;
    i := 0;
    MidwayStarts(s, bits);
    while true
      invariant shift == 7 * read && Midway(s, bits, i, read)
      decreases |s| - read
    {
      MidwayNext(s, bits, i, read);
      if read == |s| {
        return read, i;
      }
      var byte := s[read];
      if shift + 7 >= bits && byte >= Pow(2, bits - shift) {
        return -1, i;
      }
      if byte == 0 && shift != 0 {
        return -2, i;
      }
      i := i + Pow(2, shift) * (byte % 128);
      read := read + 1;
      if byte < 0x80 {
        return read, i;
      }
      shift := shift + 7;
    }
  }

  datatype StreamResult = Number(value: nat, consumed: nat) | EndOfStream | ValueOverflow | InvalidRepresentation

  /** The stream reader looks for the needless zero byte only at the end, and throws when the stream ends early. */
  method ReadVarintStream(s: seq<Byte>, bits: nat) returns (r: StreamResult)
    requires bits > 0
    ensures match Read(s, bits, true)
      case Done(v, n) => r == Number(v, n)
      case Unterminated(_, _) => r == EndOfStream
      case Overflow => r == ValueOverflow
      case NonCanonical => r == InvalidRepresentation
  {
    hide Read, Pow;
    var temp: nat, read, shift := 0, 0, 0;
    MidwayStarts(s, bits);
    while true
      invariant shift == 7 * read && Midway(s, bits, temp, read)
      decreases |s| - read
    {
      MidwayNext(s, bits, temp, read);
      if read == |s| {
        return EndOfStream;
      }
      var piece := s[read];
      if shift >= bits - 7 && piece >= Pow(2, bits - shift) {
        return ValueOverflow;
      }
      temp := temp + Pow(2, shift) * (piece % 128);
      read := read + 1;
      if piece < 0x80 {
        if piece == 0 && shift != 0 {
          return InvalidRepresentation;
        }
        return Number(temp, read);
      }
      shift := shift + 7;
    }
  }

  // ---- the end of input ----

  /** The input runs out within the number exactly when every byte asks for more and none is one too many. */
  lemma {:induction false} UnterminatedIff(s: seq<Byte>, bits: nat, first: bool)
    requires bits > 0 || first
    ensures Read(s, bits, first).Unterminated? <==> |s| < Longest(bits) && forall i :: 0 <= i < |s| ==> s[i] >= 128
    decreases |s|
  {
    PowByte(bits);
    if s != [] && bits > 7 {
      UnterminatedIff(s[1..], bits - 7, false);
      assert forall i :: 0 < i < |s| ==> s[i] == s[1..][i - 1];
    }
  }
}
