/** What counts as text on the wire (src/mqtt.rs:929-934): exactly the encodings of Unicode scalar values, as section
  * 3 of RFC 3629 lays them out. */
module MqttText {
  import opened MqttOctets

  /** A code point that is no surrogate. */
  predicate Scalar(c: nat) { c < 0xD800 || 0xE000 <= c < 0x11_0000 }

  function ScalarOctets(c: nat): (r: Octets)
    requires Scalar(c)
    ensures r != []
  {
    if c < 0x80 then [c]
    else if c < 0x800 then [0xC0 + c / 0x40, 0x80 + c % 0x40]
    else if c < 0x1_0000 then [0xE0 + c / 0x1000, 0x80 + c / 0x40 % 0x40, 0x80 + c % 0x40]
    else [0xF0 + c / 0x4_0000, 0x80 + c / 0x1000 % 0x40, 0x80 + c / 0x40 % 0x40, 0x80 + c % 0x40]
  }

  predicate Scalars(cs: seq<nat>) { forall i :: 0 <= i < |cs| ==> Scalar(cs[i]) }

  function TextOctets(cs: seq<nat>): Octets
    requires Scalars(cs)
  {
    if cs == [] then [] else ScalarOctets(cs[0]) + TextOctets(cs[1..])
  }

  /** An encoded code point is read as one, whatever follows it. */
  lemma ScalarIsRead(c: nat, rest: Octets)
    requires Scalar(c)
    ensures CodePointLength(ScalarOctets(c) + rest) == |ScalarOctets(c)|
  {}

  lemma OneOctet(s: Octets) returns (c: nat)
    requires s != [] && CodePointLength(s) == 1
    ensures Scalar(c) && ScalarOctets(c) == s[..1]
  {
    c := s[0];
  }

  lemma TwoOctets(s: Octets) returns (c: nat)
    requires s != [] && CodePointLength(s) == 2
    ensures Scalar(c) && ScalarOctets(c) == s[..2]
  {
    var a, b: int := s[0] - 0xC0, s[1] - 0x80;
    c := a * 0x40 + b;
    assert c / 0x40 == a && c % 0x40 == b;
  }

  lemma ThreeOctets(s: Octets) returns (c: nat)
    requires s != [] && CodePointLength(s) == 3
    ensures Scalar(c) && ScalarOctets(c) == s[..3]
  {
    var a, b, d: int := s[0] - 0xE0, s[1] - 0x80, s[2] - 0x80;
    c := a * 0x1000 + b * 0x40 + d;
    assert c / 0x1000 == a && c / 0x40 == a * 0x40 + b && c % 0x40 == d;
    assert (a * 0x40 + b) % 0x40 == b;
    hide CodePointLength;
    assert ScalarOctets(c) == [0xE0 + a, 0x80 + b, 0x80 + d];
  }

  lemma FourOctets(s: Octets) returns (c: nat)
    requires s != [] && CodePointLength(s) == 4
    ensures Scalar(c) && ScalarOctets(c) == s[..4]
  {
    var a, b, d, e: int := s[0] - 0xF0, s[1] - 0x80, s[2] - 0x80, s[3] - 0x80;
    c := a * 0x4_0000 + b * 0x1000 + d * 0x40 + e;
    assert c / 0x4_0000 == a && c / 0x1000 == a * 0x40 + b && c / 0x40 == a * 0x1000 + b * 0x40 + d && c % 0x40 == e;
    assert (a * 0x40 + b) % 0x40 == b && (a * 0x1000 + b * 0x40 + d) % 0x40 == d;
    hide CodePointLength;
    assert ScalarOctets(c) == [0xF0 + a, 0x80 + b, 0x80 + d, 0x80 + e];
  }

  /** Whatever is read as one code point encodes one. */
  lemma ReadIsScalar(s: Octets) returns (c: nat)
    requires s != [] && CodePointLength(s) > 0
    ensures Scalar(c) && ScalarOctets(c) == s[..CodePointLength(s)]
  {
    var k := CodePointLength(s);
    assert k <= 4;
    hide CodePointLength, ScalarOctets, Scalar;
    if k == 1 {
      c := OneOctet(s);
    } else if k == 2 {
      c := TwoOctets(s);
    } else if k == 3 {
      c := ThreeOctets(s);
    } else {
      c := FourOctets(s);
    }
  }

  lemma {:induction false} EncodedIsText(cs: seq<nat>)
    requires Scalars(cs)
    ensures IsUtf8(TextOctets(cs))
  {
    if cs != [] {
      var first, rest := ScalarOctets(cs[0]), TextOctets(cs[1..]);
      ScalarIsRead(cs[0], rest);
      hide CodePointLength, ScalarOctets;
      EncodedIsText(cs[1..]);
      assert (first + rest)[|first|..] == rest;
    }
  }

  lemma {:induction false} TextIsEncoded(s: Octets) returns (cs: seq<nat>)
    requires IsUtf8(s)
    ensures Scalars(cs) && TextOctets(cs) == s
    decreases |s|
  {
    if s == [] {
      cs := [];
    } else {
      var k := CodePointLength(s);
      var c := ReadIsScalar(s);
      hide CodePointLength, ScalarOctets;
      var rest := TextIsEncoded(s[k..]);
      cs := [c] + rest;
      assert cs[1..] == rest && s[..k] + s[k..] == s;
    }
  }

  /** Octets are text exactly when they encode some sequence of scalar values. */
  lemma TextExactly(s: Octets)
    ensures IsUtf8(s) <==> exists cs: seq<nat> :: Scalars(cs) && TextOctets(cs) == s
  {
    hide Scalars, IsUtf8;
    if IsUtf8(s) {
      var cs := TextIsEncoded(s);
    }
    if cs: seq<nat> :| Scalars(cs) && TextOctets(cs) == s {
      EncodedIsText(cs);
    }
  }
}
