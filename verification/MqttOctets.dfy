/** The cursor, the writer and the primitive fields of an MQTT packet (src/mqtt.rs:891-1036).
  *
  * Each primitive exists twice: as a function on the octets still unread, which the proofs reason about,
  * and as a method of `Reader` or `Writer` that moves a cursor or grows a buffer and is proved to do what
  * the function says. */
module MqttOctets {
  import opened Prelude

  type Octet = x: int | 0 <= x < 0x100
  type Word = x: int | 0 <= x < 0x1_0000
  type Octets = seq<Octet>

  /** Largest remaining length a four-octet varint can express. */
  const MAX_REMAINING_LEN: nat := 268_435_455

  // ------------------------------------------------------------------ UTF-8

  predicate Continuation(o: Octet) { 0x80 <= o < 0xC0 }

  /** How many octets the first code point of `s` takes, or 0 if `s` does not start with a well-formed one
    * (the table of section 4 of RFC 3629, which is what `core::str::from_utf8` accepts). */
  function CodePointLength(s: Octets): nat
    requires s != []
    ensures CodePointLength(s) <= |s|
  {
    var a := s[0];
    if a < 0x80 then 1
    else if 0xC2 <= a < 0xE0 && |s| >= 2 && Continuation(s[1]) then 2
    else if 0xE0 <= a < 0xF0 && |s| >= 3 && Continuation(s[1]) && Continuation(s[2])
            && (a == 0xE0 ==> s[1] >= 0xA0) && (a == 0xED ==> s[1] < 0xA0) then 3
    else if 0xF0 <= a < 0xF5 && |s| >= 4 && Continuation(s[1]) && Continuation(s[2]) && Continuation(s[3])
            && (a == 0xF0 ==> s[1] >= 0x90) && (a == 0xF4 ==> s[1] < 0x90) then 4
    else 0
  }

  predicate IsUtf8(s: Octets)
    decreases |s|
  {
    s == [] || (CodePointLength(s) > 0 && IsUtf8(s[CodePointLength(s)..]))
  }

  // ------------------------------------------------------------------ fields

  /** What reading one field from the front of some octets gives: the value and what is left. */
  datatype Read<+T> = Short | Got(value: T, rest: Octets)

  function WordOctets(v: Word): Octets { [v / 0x100, v % 0x100] }

  function ReadOctet(s: Octets): Read<Octet> {
    if s == [] then Short else Got(s[0], s[1..])
  }

  function ReadWord(s: Octets): Read<Word> {
    if |s| < 2 then Short else Got(s[0] as int * 0x100 + s[1], s[2..])
  }

  /** A length-prefixed byte string. */
  function ReadField(s: Octets): Read<Octets> {
    match ReadWord(s)
    case Short => Short
    case Got(n, rest) => if n <= |rest| then Got(rest[..n], rest[n..]) else Short
  }

  /** The length prefix saturates, so a longer value is written whole under a prefix of 65535. */
  function FieldOctets(v: Octets): Octets {
    WordOctets(if |v| < 0x1_0000 then |v| else 0xFFFF) + v
  }

  lemma WordRoundTrip(v: Word, rest: Octets)
    ensures ReadWord(WordOctets(v) + rest) == Got(v, rest)
  {
    assert (WordOctets(v) + rest)[2..] == rest;
  }

  lemma FieldRoundTrip(v: Octets, rest: Octets)
    requires |v| < 0x1_0000
    ensures ReadField(FieldOctets(v) + rest) == Got(v, rest)
  {
    assert FieldOctets(v) + rest == WordOctets(|v|) + (v + rest);
    WordRoundTrip(|v|, v + rest);
  }

  /** Reading a field and writing it back restores the octets it was read from. */
  lemma FieldRewrites(s: Octets)
    requires ReadField(s).Got?
    ensures |ReadField(s).value| < 0x1_0000
    ensures s == FieldOctets(ReadField(s).value) + ReadField(s).rest
  {
    var n := s[0] as int * 0x100 + s[1];
    assert s == [s[0], s[1]] + s[2..2 + n] + s[2 + n..];
    assert WordOctets(n) == [s[0], s[1]];
    assert ReadField(s) == Got(s[2..][..n], s[2..][n..]);
    assert s[2..][..n] == s[2..2 + n] && s[2..][n..] == s[2 + n..];
  }

  // ------------------------------------------------------------------ remaining length

  /** What a remaining-length varint at the front of some octets says. */
  datatype Varint = Incomplete | Overlong | Complete(value: nat, used: nat)

  /** Read a varint of at most `left` octets. */
  function ReadVarint(s: Octets, left: nat): (r: Varint)
    ensures r.Complete? ==> 1 <= r.used <= |s| && r.used <= left
  {
    if left == 0 then Overlong
    else if s == [] then Incomplete
    else if s[0] < 0x80 then Complete(s[0], 1)
    else
      match ReadVarint(s[1..], left - 1)
      case Complete(v, used) => Complete(s[0] - 0x80 + 128 * v, used + 1)
      case other => other
  }

  function VarintOctets(n: nat): (r: Octets)
    ensures |r| >= 1
  {
    if n < 128 then [n] else [n % 128 + 0x80] + VarintOctets(n / 128)
  }

  /** A varint read after `i` octets that already said `sum`, with its own octets worth `weight` each. */
  function Weighted(tail: Varint, sum: nat, weight: nat, i: nat): Varint {
    match tail
    case Complete(v, used) => Complete(sum + weight * v, i + used)
    case other => other
  }

  lemma WeightedStep(s: Octets, left: nat, sum: nat, weight: nat, i: nat)
    requires s != [] && left > 0
    ensures (s[0] % 0x80) * weight >= 0 && weight * 128 >= 0
    ensures Weighted(ReadVarint(s, left), sum, weight, i) ==
            if s[0] < 0x80 then Complete(sum + (s[0] % 0x80) * weight, i + 1)
            else Weighted(ReadVarint(s[1..], left - 1), sum + (s[0] % 0x80) * weight, weight * 128, i + 1)
  {
    var tail := ReadVarint(s[1..], left - 1);
    if s[0] >= 0x80 && tail.Complete? {
      var low, v := s[0] - 0x80, tail.value;
      assert weight * (low + 128 * v) == low * weight + (weight * 128) * v;
    }
  }

  lemma WeightedStart(s: Octets, left: nat)
    ensures Weighted(ReadVarint(s, left), 0, 1, 0) == ReadVarint(s, left)
  {}

  lemma WeightedEnd(left: nat, sum: nat, weight: nat, i: nat)
    ensures Weighted(ReadVarint([], left), sum, weight, i) == if left == 0 then Overlong else Incomplete
    ensures forall s :: Weighted(ReadVarint(s, 0), sum, weight, i) == Overlong
  {}

  /** 128 to the power `k`: the first value `k` octets cannot express. */
  function Capacity(k: nat): nat {
    if k == 0 then 1 else 128 * Capacity(k - 1)
  }

  lemma {:induction false} VarintRoundTrip(n: nat, left: nat, rest: Octets)
    requires n < Capacity(left) && left > 0
    ensures ReadVarint(VarintOctets(n) + rest, left) == Complete(n, |VarintOctets(n)|)
  {
    if n >= 128 {
      assert left > 1 by { assert Capacity(0) == 1; }
      VarintRoundTrip(n / 128, left - 1, rest);
      assert (VarintOctets(n) + rest)[1..] == VarintOctets(n / 128) + rest;
    }
  }

  lemma CapacityPositive(k: nat)
    ensures Capacity(k) >= 1
  {}

  lemma {:induction false} VarintBounded(s: Octets, left: nat)
    ensures var r := ReadVarint(s, left); r.Complete? ==> r.value < Capacity(left)
  {
    if left > 0 && s != [] {
      VarintBounded(s[1..], left - 1);
      CapacityPositive(left - 1);
    }
  }

  /** Once a varint is decided, more octets change nothing. */
  lemma {:induction false} VarintStable(s: Octets, more: Octets, left: nat)
    requires ReadVarint(s, left) != Incomplete
    ensures ReadVarint(s + more, left) == ReadVarint(s, left)
  {
    if left > 0 && s[0] >= 0x80 {
      VarintStable(s[1..], more, left - 1);
      assert (s + more)[1..] == s[1..] + more;
    }
  }

  /** Cut anywhere inside itself, a varint asks for more rather than failing. */
  lemma {:induction false} VarintCut(s: Octets, k: nat, left: nat)
    requires ReadVarint(s, left).Complete? && k < ReadVarint(s, left).used
    ensures ReadVarint(s[..k], left) == Incomplete
  {
    if k > 0 {
      VarintCut(s[1..], k - 1, left - 1);
      assert s[..k][1..] == s[1..][..k - 1];
    }
  }

  // ------------------------------------------------------------------ Reader

  /** Some octets and how many of them were read; every read is one of the functions above, on the rest. */
  class Reader {
    const buf: Octets
    var pos: nat

    ghost predicate Valid()
      reads this
    {
      pos <= |buf|
    }

    constructor (buf: Octets)
      ensures Valid() && this.buf == buf && pos == 0
      ensures Rest() == buf
    {
      this.buf := buf;
      pos := 0;
    }

    /** The octets not consumed yet. */
    function Rest(): Octets
      requires Valid()
      reads this
    {
      buf[pos..]
    }

    function Remaining(): nat
      requires Valid()
      reads this
    {
      |buf| - pos
    }

    /** What every read does: move past what the function on the rest consumed, and return what it read. */
    ghost predicate Took<T>(before: Octets, from: nat, r: Read<T>, value: Option<T>)
      requires Valid()
      reads this
    {
      match r
      case Short => value == None
      case Got(v, rest) => value == Some(v) && Rest() == rest && pos == from + |before| - |rest|
    }

    method U8() returns (value: Option<Octet>)
      requires Valid()
      modifies this
      ensures Valid() && Took(old(Rest()), old(pos), ReadOctet(old(Rest())), value)
      ensures value == None ==> pos == old(pos)
    {
      if pos < |buf| {
        value := Some(buf[pos]);
        pos := pos + 1;
      } else {
        value := None;
      }
    }

    method U16() returns (value: Option<Word>)
      requires Valid()
      modifies this
      ensures Valid() && Took(old(Rest()), old(pos), ReadWord(old(Rest())), value)
      ensures value == None ==> pos == old(pos)
    {
      if pos + 2 <= |buf| {
        value := Some(buf[pos] as int * 0x100 + buf[pos + 1]);
        pos := pos + 2;
      } else {
        value := None;
      }
    }

    method Field() returns (value: Option<Octets>)
      requires Valid()
      modifies this
      ensures Valid() && Took(old(Rest()), old(pos), ReadField(old(Rest())), value)
    {
      var len := U16();
      if len == None {
        return None;
      }
      var end := pos + len.value;
      if end <= |buf| {
        assert buf[pos..][..len.value] == buf[pos..end];
        value := Some(buf[pos..end]);
        pos := end;
      } else {
        value := None;
      }
    }

    /** The remaining-length loop: at most four octets, each adding seven bits. */
    method Varint() returns (r: Varint)
      requires Valid()
      modifies this
      ensures Valid()
      ensures r == ReadVarint(old(Rest()), 4)
      ensures r.Complete? ==> pos == old(pos) + r.used
    {
      ghost var start := Rest();
      hide ReadVarint, Weighted;
      WeightedStart(start, 4);
      var value: nat, multiplier: nat, i: nat := 0, 1, 0;
      while i < 4
        invariant Valid() && i <= 4 && pos == old(pos) + i
        invariant multiplier >= 1
        invariant ReadVarint(start, 4) == Weighted(ReadVarint(Rest(), 4 - i), value, multiplier, i)
      {
        ghost var before := Rest();
        if before == [] {
          WeightedEnd(4 - i, value, multiplier, i);
        }
        var octet := U8();
        if octet == None {
          return Incomplete;
        }
        var low: nat := octet.value % 0x80;
        WeightedStep(before, 4 - i, value, multiplier, i);
        if octet.value < 0x80 {
          return Complete(value + low * multiplier, i + 1);
        }
        value := value + low * multiplier;
        multiplier := multiplier * 128;
        i := i + 1;
      }
      WeightedEnd(0, value, multiplier, i);
      assert Weighted(ReadVarint(Rest(), 0), value, multiplier, i) == Overlong;
      r := Overlong;
    }
  }

  // ------------------------------------------------------------------ Writer

  /** Some octets so far; every write appends what one of the functions above gives. */
  class Writer {
    var buf: Octets

    constructor ()
      ensures buf == []
    {
      buf := [];
    }

    method U8(value: Octet)
      modifies this
      ensures buf == old(buf) + [value]
    {
      buf := buf + [value];
    }

    method U16(value: Word)
      modifies this
      ensures buf == old(buf) + WordOctets(value)
    {
      buf := buf + [value / 0x100, value % 0x100];
    }

    method Raw(value: Octets)
      modifies this
      ensures buf == old(buf) + value
    {
      buf := buf + value;
    }

    method Field(value: Octets)
      modifies this
      ensures buf == old(buf) + FieldOctets(value)
    {
      U16(if |value| < 0x1_0000 then |value| else 0xFFFF);
      Raw(value);
    }

    method Varint(n: nat)
      modifies this
      ensures buf == old(buf) + VarintOctets(n)
    {
      var value := n;
      while true
        invariant old(buf) + VarintOctets(n) == buf + VarintOctets(value)
        decreases value
      {
        var octet: Octet := value % 128;
        ghost var before := value;
        value := value / 128;
        if value > 0 {
          octet := octet + 0x80;
        }
        buf := buf + [octet];
        if value == 0 {
          return;
        }
        assert VarintOctets(before) == [octet] + VarintOctets(value);
      }
    }
  }
}
