/** Recorded frames, and the files that hold the newest of them (src/record.rs:67-222, 300-419). */
module Recording {
  import opened Prelude
  import opened MqttOctets

  datatype Stream = Up | Down | Inject | Blocked

  type Micros = x: int | 0 <= x < 0x1_0000_0000_0000_0000

  datatype Record = Record(stream: Stream, micros: Micros, payload: Octets)

  /** "HBR1", which marks the start of a record. */
  const Magic: Octets := [0x48, 0x42, 0x52, 0x31]

  const HEADER: nat := 17
  const LONGEST: nat := 0xFFFF_FFFF

  function Tag(s: Stream): (tag: Octet)
    ensures tag < 4
  {
    match s case Up => 0 case Down => 1 case Inject => 2 case Blocked => 3
  }

  function FromTag(tag: Octet): Option<Stream> {
    if tag == 0 then Some(Up) else if tag == 1 then Some(Down)
    else if tag == 2 then Some(Inject) else if tag == 3 then Some(Blocked) else None
  }

  // ------------------------------------------------------------------ big-endian numbers

  function BigEndian(n: nat, v: nat): (r: Octets)
    ensures |r| == n
  {
    if n == 0 then [] else BigEndian(n - 1, v / 0x100) + [v % 0x100]
  }

  function FromBigEndian(s: Octets): nat {
    if s == [] then 0 else FromBigEndian(s[..|s| - 1]) * 0x100 + s[|s| - 1]
  }

  function Pow256(n: nat): nat { if n == 0 then 1 else 0x100 * Pow256(n - 1) }

  lemma {:induction false} NumberRoundTrip(n: nat, v: nat)
    requires v < Pow256(n)
    ensures FromBigEndian(BigEndian(n, v)) == v
  {
    if n > 0 {
      NumberRoundTrip(n - 1, v / 0x100);
      assert BigEndian(n, v)[..n - 1] == BigEndian(n - 1, v / 0x100);
    }
  }

  lemma {:induction false} NumberRewrites(s: Octets)
    ensures FromBigEndian(s) < Pow256(|s|) && BigEndian(|s|, FromBigEndian(s)) == s
  {
    if s != [] {
      NumberRewrites(s[..|s| - 1]);
      assert s == s[..|s| - 1] + [s[|s| - 1]];
    }
  }

  lemma Widths()
    ensures Pow256(4) == 0x1_0000_0000 && Pow256(8) == 0x1_0000_0000_0000_0000
  {
    assert Pow256(4) == 0x1_0000_0000;
  }

  // ------------------------------------------------------------------ one record

  /** The length field says at most what four octets can. */
  function LengthOf(payload: Octets): nat {
    if |payload| <= LONGEST then |payload| else LONGEST
  }

  function Header(r: Record): (h: Octets)
    ensures |h| == HEADER
  {
    Magic + [Tag(r.stream)] + BigEndian(8, r.micros) + BigEndian(4, LengthOf(r.payload))
  }

  function Encode(r: Record): Octets { Header(r) + r.payload }

  /** The first record and how many octets it takes, if its header and all of its payload are there. */
  function Decode(b: Octets): (r: Option<(Record, nat)>)
    ensures r.Some? ==> HEADER <= r.value.1 <= |b|
  {
    if |b| < HEADER || b[..4] != Magic || FromTag(b[4]) == None then None
    else
      Widths();
      NumberRewrites(b[5..13]);
      var end := HEADER + FromBigEndian(b[13..17]);
      if |b| < end then None
      else Some((Record(FromTag(b[4]).value, FromBigEndian(b[5..13]), b[HEADER..end]), end))
  }

  method EncodeRecord(r: Record) returns (out: Octets)
    ensures out == Encode(r)
  {
    out := Magic;
    out := out + [Tag(r.stream)];
    out := out + BigEndian(8, r.micros);
    out := out + BigEndian(4, if |r.payload| <= LONGEST then |r.payload| else LONGEST);
    out := out + r.payload;
  }

  lemma HeaderParts(r: Record, b: Octets)
    requires |b| >= HEADER && b[..HEADER] == Header(r)
    ensures b[..4] == Magic && b[4] == Tag(r.stream)
    ensures b[5..13] == BigEndian(8, r.micros) && b[13..17] == BigEndian(4, LengthOf(r.payload))
  {
    var h := Header(r);
    assert b[..4] == h[..4] && b[4] == h[4] && b[5..13] == h[5..13] && b[13..17] == h[13..17];
  }

  /** Whatever follows a record's header, decoding goes by the length it states. */
  lemma DecodeByLength(r: Record, b: Octets)
    requires |b| >= HEADER && b[..HEADER] == Header(r)
    ensures Decode(b) ==
            var end := HEADER + LengthOf(r.payload);
            if |b| < end then None else Some((Record(r.stream, r.micros, b[HEADER..end]), end))
  {
    HeaderParts(r, b);
    Widths();
    NumberRoundTrip(8, r.micros);
    NumberRoundTrip(4, LengthOf(r.payload));
  }

  /** A record comes back, with whatever follows it left over, exactly when its length fits its four octets. */
  lemma RecordRoundTripExactly(r: Record, rest: Octets)
    ensures Decode(Encode(r) + rest) == Some((r, |Encode(r)|)) <==> |r.payload| <= LONGEST
  {
    var b := Encode(r) + rest;
    assert b[..HEADER] == Header(r);
    DecodeByLength(r, b);
    if |r.payload| <= LONGEST {
      assert b[HEADER..HEADER + |r.payload|] == r.payload;
    }
  }

  /** A record cut short decodes as nothing. */
  lemma CutRecordIsNothing(r: Record, k: nat)
    requires |r.payload| <= LONGEST && k < |Encode(r)|
    ensures Decode(Encode(r)[..k]) == None
  {
    var b := Encode(r)[..k];
    if k >= HEADER {
      assert b[..HEADER] == Header(r);
      DecodeByLength(r, b);
    }
  }

  /** There is one way to write a record: what decodes is rewritten as it was read. */
  lemma DecodedRewrites(b: Octets)
    requires Decode(b).Some?
    ensures var (r, n) := Decode(b).value; Encode(r) == b[..n] && |r.payload| <= LONGEST
  {
    var (r, n) := Decode(b).value;
    Widths();
    NumberRewrites(b[5..13]);
    NumberRewrites(b[13..17]);
    assert b[..n] == b[..4] + [b[4]] + b[5..13] + b[13..17] + b[17..n];
  }

  // ------------------------------------------------------------------ many records

  function EncodeAll(rs: seq<Record>): Octets {
    if rs == [] then [] else Encode(rs[0]) + EncodeAll(rs[1..])
  }

  function DecodeAll(b: Octets): seq<Record>
    decreases |b|
  {
    match Decode(b)
    case None => []
    case Some((r, n)) => [r] + DecodeAll(b[n..])
  }

  /** The reading loop of whoever reads a recording back. */
  method ReadAll(data: Octets) returns (out: seq<Record>)
    ensures out == DecodeAll(data)
  {
    out := [];
    var rest := data;
    while Decode(rest).Some?
      invariant out + DecodeAll(rest) == DecodeAll(data)
      decreases |rest|
    {
      var (r, n) := Decode(rest).value;
      out := out + [r];
      rest := rest[n..];
    }
  }

  predicate AllFit(rs: seq<Record>) { forall i :: 0 <= i < |rs| ==> |rs[i].payload| <= LONGEST }

  lemma EncodeOne(r: Record)
    ensures EncodeAll([r]) == Encode(r)
  {
    assert [r][1..] == [];
  }

  lemma FirstThenRest(r: Record, rest: Octets)
    requires |r.payload| <= LONGEST
    ensures DecodeAll(Encode(r) + rest) == [r] + DecodeAll(rest)
  {
    RecordRoundTripExactly(r, rest);
    hide Encode, Decode;
    assert (Encode(r) + rest)[|Encode(r)|..] == rest;
  }

  lemma NoneOfTheFirst(rs: seq<Record>, k: nat)
    requires rs != [] && |rs[0].payload| <= LONGEST && k < |EncodeAll(rs[..1])|
    ensures k <= |EncodeAll(rs)| && DecodeAll(EncodeAll(rs)[..k]) == []
  {
    EncodeOne(rs[0]);
    assert rs[..1] == [rs[0]];
    hide Encode, Decode;
    assert EncodeAll(rs)[..k] == Encode(rs[0])[..k];
    CutRecordIsNothing(rs[0], k);
  }

  lemma {:induction false} EncodeAllJoin(a: seq<Record>, c: seq<Record>)
    ensures EncodeAll(a + c) == EncodeAll(a) + EncodeAll(c)
  {
    hide Encode;
    if a == [] {
      assert a + c == c;
    } else {
      EncodeAllJoin(a[1..], c);
      assert (a + c)[1..] == a[1..] + c && (a + c)[0] == a[0];
      assert EncodeAll(a + c) == Encode(a[0]) + EncodeAll(a[1..] + c);
      assert EncodeAll(a) == Encode(a[0]) + EncodeAll(a[1..]);
      hide EncodeAll;
    }
  }

  /** Whole records are read first, and then whatever follows them. */
  lemma {:induction false} AllThenRest(rs: seq<Record>, rest: Octets)
    requires AllFit(rs)
    ensures DecodeAll(EncodeAll(rs) + rest) == rs + DecodeAll(rest)
  {
    hide DecodeAll, Encode;
    if rs == [] {
      assert EncodeAll(rs) + rest == rest;
    } else {
      assert EncodeAll(rs) == Encode(rs[0]) + EncodeAll(rs[1..]) && |rs[0].payload| <= LONGEST;
      AllThenRest(rs[1..], rest);
      hide EncodeAll;
      assert (Encode(rs[0]) + EncodeAll(rs[1..])) + rest == Encode(rs[0]) + (EncodeAll(rs[1..]) + rest);
      FirstThenRest(rs[0], EncodeAll(rs[1..]) + rest);
    }
  }

  /** Cut anywhere, a recording gives back exactly the records that are whole. */
  lemma CutGivesWhole(rs: seq<Record>, k: nat, m: nat)
    requires AllFit(rs) && m <= |rs|
    requires |EncodeAll(rs[..m])| <= k <= |EncodeAll(rs)| && (m < |rs| ==> k < |EncodeAll(rs[..m + 1])|)
    ensures DecodeAll(EncodeAll(rs)[..k]) == rs[..m]
  {
    hide Encode, EncodeAll, DecodeAll;
    var whole, left := rs[..m], rs[m..];
    EncodeAllJoin(whole, left);
    assert whole + left == rs && AllFit(whole);
    var cut := k - |EncodeAll(whole)|;
    assert EncodeAll(rs)[..k] == EncodeAll(whole) + EncodeAll(left)[..cut];
    AllThenRest(whole, EncodeAll(left)[..cut]);
    if m < |rs| {
      EncodeAllJoin(whole, left[..1]);
      assert whole + left[..1] == rs[..m + 1] && left[0] == rs[m];
      NoneOfTheFirst(left, cut);
    } else {
      NoRecords();
      assert EncodeAll(left)[..cut] == [];
    }
  }

  lemma NoRecords()
    ensures EncodeAll([]) == [] && DecodeAll([]) == []
  {}

  lemma DecodeEncodeAll(rs: seq<Record>)
    requires AllFit(rs)
    ensures DecodeAll(EncodeAll(rs)) == rs
  {
    assert rs[..|rs|] == rs;
    CutGivesWhole(rs, |EncodeAll(rs)|, |rs|);
    assert EncodeAll(rs)[..|EncodeAll(rs)|] == EncodeAll(rs);
  }

  // ------------------------------------------------------------------ after a torn tail

  /** What is left of a file where reading it stops. */
  function Tail(b: Octets): Octets
    decreases |b|
  {
    match Decode(b)
    case None => b
    case Some((_, n)) => Tail(b[n..])
  }

  /** A record that is there stays there whatever is appended. */
  lemma DecodeStays(b: Octets, more: Octets)
    requires Decode(b).Some?
    ensures Decode(b + more) == Decode(b)
  {
    var n := Decode(b).value.1;
    var c := b + more;
    assert c[..4] == b[..4] && c[4] == b[4] && c[5..13] == b[5..13] && c[13..17] == b[13..17];
    assert c[HEADER..n] == b[HEADER..n];
  }

  /** What was read of a file is still read after something is appended; then reading goes on in its tail. */
  lemma {:induction false} AppendedRead(b: Octets, more: Octets)
    ensures DecodeAll(b + more) == DecodeAll(b) + DecodeAll(Tail(b) + more)
    decreases |b|
  {
    hide Decode;
    if Decode(b).Some? {
      var (r, n) := Decode(b).value;
      DecodeStays(b, more);
      assert (b + more)[n..] == b[n..] + more;
      AppendedRead(b[n..], more);
      assert [r] + (DecodeAll(b[n..]) + DecodeAll(Tail(b[n..]) + more)) == DecodeAll(b) + DecodeAll(Tail(b) + more);
    } else {
      assert [] + DecodeAll(b + more) == DecodeAll(b + more);
    }
  }

  /** The shortest record of a stream. */
  function Blank(s: Stream): Record { Record(s, 0, []) }

  lemma BlankOctets(s: Stream)
    ensures var e := Encode(Blank(s));
            |e| == HEADER && e[0] == 0x48 && e[1] == 0x42 && e[2] == 0x52 && e[3] == 0x31 && e[4] == Tag(s)
  {}

  /** A tail after which a blank record is read back begins with that record, overlaid on itself. */
  lemma BlankRead(t: Octets, s: Stream)
    requires DecodeAll(t + Encode(Blank(s))) == [Blank(s)]
    ensures (t + Encode(Blank(s)))[..HEADER] == Encode(Blank(s))
  {
    BlankOctets(s);
    var b := t + Encode(Blank(s));
    hide Encode, Decode;
    assert DecodeAll(b)[0] == Blank(s);
    assert Decode(b).Some? && Decode(b).value.0 == Blank(s);
    DecodedRewrites(b);
  }

  lemma Overlaid(t: Octets, s: Stream)
    requires t != []
    ensures var e := Encode(Blank(s)); (t + e)[..HEADER] == e ==> |t| > 4 && t[4] == Tag(s)
  {
    BlankOctets(s);
    var e := Encode(Blank(s));
    hide Encode;
    var both := (t + e)[..HEADER];
    if |t| > 4 {
      assert both[4] == t[4];
    } else {
      assert both[|t|] == e[0];
    }
  }

  /** No tail lets a blank record of either of two streams be read back. */
  lemma TailHides(t: Octets)
    requires t != []
    ensures DecodeAll(t + Encode(Blank(Up))) != [Blank(Up)] || DecodeAll(t + Encode(Blank(Down))) != [Blank(Down)]
  {
    hide Encode, Decode, DecodeAll;
    Overlaid(t, Up);
    Overlaid(t, Down);
    if DecodeAll(t + Encode(Blank(Up))) == [Blank(Up)] {
      BlankRead(t, Up);
    }
    if DecodeAll(t + Encode(Blank(Down))) == [Blank(Down)] {
      BlankRead(t, Down);
    }
  }

  /** Whatever records are appended to a file are read back after what it held, exactly when it ended with a whole
    * record. */
  lemma ReadBackExactlyWhenWhole(b: Octets)
    ensures (forall rs :: AllFit(rs) ==> DecodeAll(b + EncodeAll(rs)) == DecodeAll(b) + rs) <==> Tail(b) == []
  {
    if Tail(b) == [] {
      forall rs | AllFit(rs)
        ensures DecodeAll(b + EncodeAll(rs)) == DecodeAll(b) + rs
      {
        AppendedRead(b, EncodeAll(rs));
        assert [] + EncodeAll(rs) == EncodeAll(rs);
        DecodeEncodeAll(rs);
      }
    } else {
      if forall rs :: AllFit(rs) ==> DecodeAll(b + EncodeAll(rs)) == DecodeAll(b) + rs {
        BlankAppended(b, Up);
        BlankAppended(b, Down);
        TailHides(Tail(b));
      }
    }
  }

  lemma BlankAppended(b: Octets, s: Stream)
    requires DecodeAll(b + EncodeAll([Blank(s)])) == DecodeAll(b) + [Blank(s)]
    ensures DecodeAll(Tail(b) + Encode(Blank(s))) == [Blank(s)]
  {
    hide Encode, Decode, DecodeAll;
    EncodeOne(Blank(s));
    AppendedRead(b, Encode(Blank(s)));
    var read := DecodeAll(Tail(b) + Encode(Blank(s)));
    assert (DecodeAll(b) + read)[|DecodeAll(b)|..] == read;
    assert (DecodeAll(b) + [Blank(s)])[|DecodeAll(b)|..] == [Blank(s)];
  }

  /** A file that was cut after the first octet of a record hides everything appended to it. */
  lemma OneOctetHidesAll(rs: seq<Record>)
    ensures DecodeAll([0x48] + EncodeAll(rs)) == []
  {
    if rs != [] {
      assert EncodeAll(rs)[0] == 0x48;
      assert ([0x48] + EncodeAll(rs))[..4][1] == 0x48;
    }
  }

  // ------------------------------------------------------------------ one stream's files

  /** One stream's files, which need not exist, and how much the open one is known to hold. */
  datatype Files = Files(open: Option<nat>, live: Option<Octets>, rotated: Option<Octets>)

  function Holding(file: Option<Octets>): Octets { if file.Some? then file.value else [] }

  /** What an open file is known to hold is what it holds. */
  predicate Sized(f: Files) { f.open.Some? ==> f.live.Some? && f.open.value == |f.live.value| }

  /** One record appended, after moving the live file aside if it would exceed the cap. */
  function Appended(f: Files, encoded: Octets, cap: nat): Files {
    var live := Holding(f.live);
    var size := if f.open.Some? then f.open.value else |live|;
    if size + |encoded| > cap then Files(Some(|encoded|), Some(encoded), Some(live))
    else Files(Some(size + |encoded|), Some(live + encoded), f.rotated)
  }

  function AppendedAll(f: Files, rs: seq<Record>, cap: nat): Files {
    if rs == [] then f
    else Appended(AppendedAll(f, rs[..|rs| - 1], cap), Encode(rs[|rs| - 1]), cap)
  }

  const NoFiles := Files(None, None, None)

  /** Where a write fails, if it does: at opening the file, at moving it aside, at opening it again, or after so many
    * of its octets were written. */
  datatype Fault = Sound | OpenFails | RotateFails | ReopenFails | WriteFails(octets: nat)

  /** The files ready for so many octets more, and whether they are. */
  function Readied(f: Files, octets: nat, cap: nat, fault: Fault): (Files, bool) {
    if f.open == None && fault.OpenFails? then (f, false)
    else
      var live := Holding(f.live);
      var size := if f.open.Some? then f.open.value else |live|;
      if size + octets <= cap then (Files(Some(size), Some(live), f.rotated), true)
      else if fault.RotateFails? then (Files(None, Some(live), f.rotated), false)
      else if fault.ReopenFails? then (Files(None, None, Some(live)), false)
      else (Files(Some(0), Some([]), Some(live)), true)
  }

  /** One record appended as far as that goes, and whether it was appended whole. */
  function Attempted(f: Files, encoded: Octets, cap: nat, fault: Fault): (Files, bool) {
    var (ready, ok) := Readied(f, |encoded|, cap, fault);
    if !ok then (ready, false)
    else if fault.WriteFails? && fault.octets < |encoded| then
      (ready.(live := Some(Holding(ready.live) + encoded[..fault.octets])), false)
    else (Files(Some(ready.open.value + |encoded|), Some(Holding(ready.live) + encoded), ready.rotated), true)
  }

  /** A write that fails at nothing is whole. */
  lemma SoundIsAppended(f: Files, encoded: Octets, cap: nat)
    requires Sized(f)
    ensures Attempted(f, encoded, cap, Sound) == (Appended(f, encoded, cap), true)
  {
    assert [] + encoded == encoded;
  }

  lemma ReadiedKeeps(f: Files, octets: nat, cap: nat, fault: Fault) returns (lost: Octets)
    requires Sized(f)
    ensures var g := Readied(f, octets, cap, fault).0;
            lost + (Holding(g.rotated) + Holding(g.live)) == Holding(f.rotated) + Holding(f.live)
  {
    var live, rotated := Holding(f.live), Holding(f.rotated);
    if (f.open == None && fault.OpenFails?) || |live| + octets <= cap || fault.RotateFails? {
      lost := [];
      assert [] + (rotated + live) == rotated + live;
    } else {
      lost := rotated;
      assert live + [] == live;
    }
  }

  lemma LostThenWritten(lost: Octets, rotated: Octets, live: Octets, written: Octets)
    ensures lost + (rotated + (live + written)) == lost + (rotated + live) + written
  {}

  /** A failed write costs nothing but what moving a full file aside costs anyway: the two files still end what they
    * held, followed by as much of the record as was written. */
  lemma FailureKeepsSuffix(f: Files, encoded: Octets, cap: nat, fault: Fault) returns (lost: Octets, written: Octets)
    requires Sized(f) && !Attempted(f, encoded, cap, fault).1
    ensures var g := Attempted(f, encoded, cap, fault).0;
            lost + (Holding(g.rotated) + Holding(g.live)) == Holding(f.rotated) + Holding(f.live) + written
    ensures written <= encoded && (|written| < |encoded| || encoded == [])
  {
    lost := ReadiedKeeps(f, |encoded|, cap, fault);
    var (ready, ok) := Readied(f, |encoded|, cap, fault);
    hide Readied;
    if ok {
      written := encoded[..fault.octets];
      LostThenWritten(lost, Holding(ready.rotated), Holding(ready.live), written);
    } else {
      written := [];
      assert Holding(f.rotated) + Holding(f.live) + [] == Holding(f.rotated) + Holding(f.live);
    }
  }

  /** The rotated file and then the live one are the encodings of these records, which are the last of those
    * written: all of them, or more octets than the cap; neither file is over the cap unless it is a single
    * oversize record. */
  ghost predicate Window(f: Files, rs: seq<Record>, cap: nat, i: nat, j: nat) {
    && i <= j <= |rs|
    && Holding(f.rotated) == EncodeAll(rs[i..j])
    && Holding(f.live) == EncodeAll(rs[j..])
    && (i > 0 ==> |Holding(f.rotated)| + |Holding(f.live)| > cap)
    && (|Holding(f.rotated)| <= cap || j == i + 1)
    && (|Holding(f.live)| <= cap || |rs| == j + 1)
  }

  lemma WindowStep(f: Files, rs: seq<Record>, r: Record, cap: nat, i: nat, j: nat) returns (k: nat, l: nat)
    requires Sized(f) && Window(f, rs, cap, i, j)
    ensures Window(Appended(f, Encode(r), cap), rs + [r], cap, k, l)
  {
    hide Encode;
    EncodeOne(r);
    var all := rs + [r];
    var size := |Holding(f.live)|;
    if size + |Encode(r)| > cap {
      k, l := j, |rs|;
      assert all[k..l] == rs[j..] && all[l..] == [r];
    } else {
      k, l := i, j;
      EncodeAllJoin(rs[j..], [r]);
      assert all[k..l] == rs[i..j] && all[l..] == rs[j..] + [r];
    }
  }

  /** Over every run of writes to a stream that starts without files, what is kept is a window of whole records
    * that ends with the newest. */
  lemma {:induction false} KeepsNewest(rs: seq<Record>, cap: nat) returns (i: nat, j: nat)
    ensures Sized(AppendedAll(NoFiles, rs, cap))
    ensures Window(AppendedAll(NoFiles, rs, cap), rs, cap, i, j)
  {
    if rs == [] {
      i, j := 0, 0;
    } else {
      var n := |rs| - 1;
      var k, l := KeepsNewest(rs[..n], cap);
      assert rs[..n] + [rs[n]] == rs;
      hide Window, Encode;
      i, j := WindowStep(AppendedAll(NoFiles, rs[..n], cap), rs[..n], rs[n], cap, k, l);
    }
  }

  /** Read back, the two files give exactly the newest records, and all of them if none had to go. */
  lemma ReadBackIsNewest(rs: seq<Record>, cap: nat)
    requires AllFit(rs)
    ensures var f := AppendedAll(NoFiles, rs, cap);
            var kept := DecodeAll(Holding(f.rotated)) + DecodeAll(Holding(f.live));
            && |kept| <= |rs| && kept == rs[|rs| - |kept|..]
            && (kept != rs ==> |EncodeAll(kept)| > cap)
  {
    hide AppendedAll, EncodeAll, DecodeAll;
    var i, j := KeepsNewest(rs, cap);
    DecodeEncodeAll(rs[i..j]);
    DecodeEncodeAll(rs[j..]);
    EncodeAllJoin(rs[i..j], rs[j..]);
    assert rs[i..j] + rs[j..] == rs[i..];
  }

  lemma SuffixStep(g: Files, encoded: Octets, cap: nat, was: Octets, all: Octets) returns (lost: Octets)
    requires Sized(g) && was + (Holding(g.rotated) + Holding(g.live)) == all
    ensures var h := Appended(g, encoded, cap);
            Sized(h) && lost + (Holding(h.rotated) + Holding(h.live)) == all + encoded
  {
    lost := if |Holding(g.live)| + |encoded| > cap then was + Holding(g.rotated) else was;
  }

  /** Whatever was there before, the two files end what they held followed by what was written since. */
  lemma {:induction false} AlwaysSuffix(f: Files, rs: seq<Record>, cap: nat) returns (lost: Octets)
    requires Sized(f)
    ensures var g := AppendedAll(f, rs, cap);
            && Sized(g)
            && lost + (Holding(g.rotated) + Holding(g.live)) == Holding(f.rotated) + Holding(f.live) + EncodeAll(rs)
  {
    hide Encode, Appended, Sized, Holding;
    var before := Holding(f.rotated) + Holding(f.live);
    if rs == [] {
      lost := [];
      assert before + EncodeAll(rs) == before;
    } else {
      var n := |rs| - 1;
      var r, g := rs[n], AppendedAll(f, rs[..n], cap);
      assert AppendedAll(f, rs, cap) == Appended(g, Encode(r), cap);
      lost := AlwaysSuffix(f, rs[..n], cap);
      EncodeAllJoin(rs[..n], [r]);
      EncodeOne(r);
      assert rs == rs[..n] + [r];
      hide AppendedAll, EncodeAll;
      assert (before + EncodeAll(rs[..n])) + Encode(r) == before + EncodeAll(rs);
      lost := SuffixStep(g, Encode(r), cap, lost, before + EncodeAll(rs[..n]));
    }
  }

  lemma FittingAppends(g: Files, encoded: Octets, cap: nat)
    requires Sized(g) && g.live.Some? && |g.live.value| + |encoded| <= cap
    ensures var h := Appended(g, encoded, cap);
            Sized(h) && h.live == Some(g.live.value + encoded) && h.rotated == g.rotated
  {}

  /** A writer that starts on a file that is there appends to it, while it fits under the cap: so what it writes is read
    * back exactly when that file ended with a whole record. */
  lemma {:induction false} RestartAppends(b: Octets, rotated: Option<Octets>, rs: seq<Record>, cap: nat)
    requires |b| + |EncodeAll(rs)| <= cap
    ensures var f := AppendedAll(Files(None, Some(b), rotated), rs, cap);
            Sized(f) && f.live == Some(b + EncodeAll(rs)) && f.rotated == rotated
  {
    if rs == [] {
      assert b + EncodeAll(rs) == b;
    } else {
      hide Encode, Appended, Sized;
      var n := |rs| - 1;
      EncodeOne(rs[n]);
      EncodeAllJoin(rs[..n], [rs[n]]);
      assert rs[..n] + [rs[n]] == rs;
      hide EncodeAll;
      RestartAppends(b, rotated, rs[..n], cap);
      FittingAppends(AppendedAll(Files(None, Some(b), rotated), rs[..n], cap), Encode(rs[n]), cap);
      assert b + EncodeAll(rs) == (b + EncodeAll(rs[..n])) + Encode(rs[n]);
    }
  }

  // ------------------------------------------------------------------ the writer

  function FileName(s: Stream): string {
    match s
    case Up => "up.bin"
    case Down => "down.bin"
    case Inject => "inject.bin"
    case Blocked => "blocked.bin"
  }

  function RotatedName(s: Stream): string { FileName(s) + ".1" }

  lemma NamesApart(s: Stream, t: Stream)
    ensures FileName(s) != RotatedName(t)
    ensures s != t ==> FileName(s) != FileName(t) && RotatedName(s) != RotatedName(t)
  {
    assert RotatedName(s)[0] == FileName(s)[0] && RotatedName(t)[0] == FileName(t)[0];
    assert |RotatedName(s)| == |FileName(s)| + 2;
  }

  lemma AllApart(s: Stream)
    ensures forall t: Stream :: FileName(t) != RotatedName(s) && FileName(s) != RotatedName(t)
    ensures forall t: Stream :: t != s ==>
              FileName(t) != FileName(s) && RotatedName(t) != RotatedName(s) && Tag(t) != Tag(s)
  {
    forall t: Stream
      ensures FileName(t) != RotatedName(s) && FileName(s) != RotatedName(t)
      ensures t != s ==> FileName(t) != FileName(s) && RotatedName(t) != RotatedName(s)
    {
      NamesApart(s, t);
      NamesApart(t, s);
    }
  }

  class Writer {
    const cap: nat
    /** The recording directory. */
    var disk: map<string, Octets>
    /** How much each open file is known to hold, by its stream's tag. */
    const sinks: array<Option<nat>>
    var written: nat

    ghost predicate Valid()
      reads this`disk, sinks
    {
      sinks.Length == 4 && forall s: Stream :: Sized(Of(s))
    }

    constructor (cap: nat, disk: map<string, Octets>)
      ensures Valid() && fresh(sinks) && this.cap == cap && this.disk == disk && written == 0
      ensures forall s: Stream :: Of(s).open == None
    {
      this.cap := cap;
      this.disk := disk;
      sinks := new Option<nat>[4](_ => None);
      written := 0;
    }

    ghost function Of(s: Stream): Files
      requires sinks.Length == 4
      reads this`disk, sinks
    {
      Files(
        sinks[Tag(s)],
        if FileName(s) in disk then Some(disk[FileName(s)]) else None,
        if RotatedName(s) in disk then Some(disk[RotatedName(s)]) else None)
    }

    /** The file exists afterwards, holds what it held, and is known to. */
    method Open(s: Stream)
      requires sinks.Length == 4
      modifies this`disk, sinks
      ensures var was := old(Of(s)); Of(s) == Files(Some(|Holding(was.live)|), Some(Holding(was.live)), was.rotated)
      ensures forall t: Stream :: t != s ==> Of(t) == old(Of(t))
    {
      AllApart(s);
      hide FileName, RotatedName, Tag;
      if FileName(s) !in disk {
        disk := disk[FileName(s) := []];
      }
      sinks[Tag(s)] := Some(|disk[FileName(s)]|);
    }

    /** The live file's octets become the rotated file's, and there is no live file. */
    method Rotate(s: Stream)
      requires sinks.Length == 4 && Of(s).live.Some?
      modifies this`disk, sinks
      ensures Of(s) == Files(None, None, old(Of(s)).live)
      ensures forall t: Stream :: t != s ==> Of(t) == old(Of(t))
    {
      AllApart(s);
      hide FileName, RotatedName, Tag;
      sinks[Tag(s)] := None;
      disk := disk[RotatedName(s) := disk[FileName(s)]];
      disk := disk - {FileName(s)};
    }

    /** Some octets reach the open file before the write fails. */
    method Spill(s: Stream, octets: Octets)
      requires sinks.Length == 4 && Of(s).live.Some?
      modifies this`disk
      ensures Of(s) == old(Of(s)).(live := Some(old(Of(s)).live.value + octets))
      ensures forall t: Stream :: t != s ==> Of(t) == old(Of(t))
    {
      AllApart(s);
      hide FileName, RotatedName, Tag;
      disk := disk[FileName(s) := disk[FileName(s)] + octets];
    }

    /** Append to the open file. */
    method Append(s: Stream, encoded: Octets)
      requires sinks.Length == 4 && Of(s).live.Some? && Of(s).open.Some?
      modifies this`disk, sinks
      ensures var was := old(Of(s));
              Of(s) == Files(Some(was.open.value + |encoded|), Some(was.live.value + encoded), was.rotated)
      ensures forall t: Stream :: t != s ==> Of(t) == old(Of(t))
    {
      AllApart(s);
      hide FileName, RotatedName, Tag;
      disk := disk[FileName(s) := disk[FileName(s)] + encoded];
      sinks[Tag(s)] := Some(sinks[Tag(s)].value + |encoded|);
    }

    method Close(s: Stream)
      requires sinks.Length == 4
      modifies sinks
      ensures Of(s) == old(Of(s)).(open := None)
      ensures forall t: Stream :: t != s ==> Of(t) == old(Of(t))
    {
      AllApart(s);
      hide FileName, RotatedName, Tag;
      sinks[Tag(s)] := None;
    }

    /** The stream's file is opened if it is not, and moved aside if it would exceed the cap. */
    method Ready(s: Stream, octets: nat, fault: Fault) returns (ok: bool)
      requires sinks.Length == 4 && Sized(Of(s))
      modifies this`disk, sinks
      ensures (Of(s), ok) == Readied(old(Of(s)), octets, cap, fault)
      ensures forall t: Stream :: t != s ==> Of(t) == old(Of(t))
    {
      if sinks[Tag(s)] == None {
        if fault == OpenFails {
          return false;
        }
        Open(s);
      }
      assert Sized(Of(s)) && Of(s).open.Some? && Holding(Of(s).live) == old(Holding(Of(s).live));
      if sinks[Tag(s)].value + octets > cap {
        Close(s);
        if fault == RotateFails {
          return false;
        }
        Rotate(s);
        if fault == ReopenFails {
          return false;
        }
        Open(s);
      }
      ok := true;
    }

    /** One record, appended to its own stream as far as that goes. */
    method Write(r: Record, fault: Fault) returns (ok: bool)
      requires Valid()
      modifies this`disk, sinks
      ensures (Of(r.stream), ok) == Attempted(old(Of(r.stream)), Encode(r), cap, fault)
      ensures forall s: Stream :: s != r.stream ==> Of(s) == old(Of(s))
      ensures ok ==> Valid()
    {
      var encoded := EncodeRecord(r);
      assert Sized(Of(r.stream));
      ok := Ready(r.stream, |encoded|, fault);
      hide Encode;
      ReadiedIsOpen(old(Of(r.stream)), |encoded|, cap, fault);
      if !ok {
        return;
      }
      hide Readied;
      if fault.WriteFails? && fault.octets < |encoded| {
        Spill(r.stream, encoded[..fault.octets]);
        return false;
      }
      Append(r.stream, encoded);
      WholeIsAppended(old(Of(r.stream)), encoded, cap, fault);
    }

    /** Records are written until there are no more or a write fails; after that nothing is. */
    method Run(queue: seq<Record>, faults: nat -> Fault) returns (n: nat)
      requires Valid()
      modifies this`disk, this`written, sinks
      ensures n <= |queue| && written == old(written) + n
      ensures forall s: Stream ::
                var sound := AppendedAll(old(Of(s)), OnStream(queue[..n], s), cap);
                Of(s) == if n < |queue| && queue[n].stream == s
                         then Attempted(sound, Encode(queue[n]), cap, faults(n)).0 else sound
      ensures n < |queue| ==>
                var sound := AppendedAll(old(Of(queue[n].stream)), OnStream(queue[..n], queue[n].stream), cap);
                !Attempted(sound, Encode(queue[n]), cap, faults(n)).1
    {
      hide Encode, Appended, Attempted;
      n := 0;
      while n < |queue|
        invariant n <= |queue| && Valid() && written == old(written) + n
        invariant forall s: Stream :: Of(s) == AppendedAll(old(Of(s)), OnStream(queue[..n], s), cap)
      {
        var ok := Write(queue[n], faults(n));
        if !ok {
          return;
        }
        written := written + 1;
        WholeIsAppended(AppendedAll(old(Of(queue[n].stream)), OnStream(queue[..n], queue[n].stream), cap),
                        Encode(queue[n]), cap, faults(n));
        forall s: Stream
          ensures AppendedAll(old(Of(s)), OnStream(queue[..n + 1], s), cap) ==
                  (var before := AppendedAll(old(Of(s)), OnStream(queue[..n], s), cap);
                   if s == queue[n].stream then Appended(before, Encode(queue[n]), cap) else before)
        {
          NextOnStream(old(Of(s)), queue, n, s, cap);
        }
        n := n + 1;
      }
    }
  }

  lemma ReadiedIsOpen(f: Files, octets: nat, cap: nat, fault: Fault)
    ensures var (g, ok) := Readied(f, octets, cap, fault); ok ==> g.open.Some? && g.live.Some?
  {}

  lemma WholeIsAppended(f: Files, encoded: Octets, cap: nat, fault: Fault)
    requires Sized(f)
    ensures var (g, ok) := Attempted(f, encoded, cap, fault); ok ==> g == Appended(f, encoded, cap) && Sized(g)
  {
    assert [] + encoded == encoded;
  }

  /** The records that belong to one stream. */
  function OnStream(queue: seq<Record>, s: Stream): seq<Record> {
    if queue == [] then []
    else
      var r := queue[|queue| - 1];
      OnStream(queue[..|queue| - 1], s) + if r.stream == s then [r] else []
  }

  lemma NextOnStream(f: Files, queue: seq<Record>, n: nat, s: Stream, cap: nat)
    requires n < |queue|
    ensures AppendedAll(f, OnStream(queue[..n + 1], s), cap) ==
            (var before := AppendedAll(f, OnStream(queue[..n], s), cap);
             if s == queue[n].stream then Appended(before, Encode(queue[n]), cap) else before)
  {
    hide Encode, Appended;
    assert queue[..n + 1][..n] == queue[..n];
    var before := OnStream(queue[..n], s);
    if s == queue[n].stream {
      assert (before + [queue[n]])[..|before|] == before;
    } else {
      assert before + [] == before;
    }
  }

  // ------------------------------------------------------------------ the octets and the names

  /** Each stream's octet and its two files. */
  lemma StreamsExactly(s: Stream)
    ensures match s
            case Up => Tag(s) == 0 && FileName(s) == "up.bin" && RotatedName(s) == "up.bin.1"
            case Down => Tag(s) == 1 && FileName(s) == "down.bin" && RotatedName(s) == "down.bin.1"
            case Inject => Tag(s) == 2 && FileName(s) == "inject.bin" && RotatedName(s) == "inject.bin.1"
            case Blocked => Tag(s) == 3 && FileName(s) == "blocked.bin" && RotatedName(s) == "blocked.bin.1"
  {}

  function FourOctets(v: nat): Octets { [v / 16777216 % 256, v / 65536 % 256, v / 256 % 256, v % 256] }

  /** Most significant first. */
  lemma LastFour(n: nat, v: nat)
    requires n >= 4
    ensures BigEndian(n, v) == BigEndian(n - 4, v / 4294967296) + FourOctets(v)
  {
    assert v / 256 / 256 == v / 65536 && v / 65536 / 256 == v / 16777216 && v / 16777216 / 256 == v / 4294967296;
    assert BigEndian(n, v) == BigEndian(n - 1, v / 256) + [v % 256];
    assert BigEndian(n - 1, v / 256) == BigEndian(n - 2, v / 65536) + [v / 256 % 256];
    assert BigEndian(n - 2, v / 65536) == BigEndian(n - 3, v / 16777216) + [v / 65536 % 256];
    assert BigEndian(n - 3, v / 16777216) == BigEndian(n - 4, v / 4294967296) + [v / 16777216 % 256];
  }

  /** A record is "HBR1", the stream's octet, the microseconds in eight octets and the payload's length in four, both
    * most significant first, and the payload. */
  lemma RecordWire(r: Record)
    requires |r.payload| <= 4294967295
    ensures Encode(r) ==
            [0x48, 0x42, 0x52, 0x31, Tag(r.stream)]
            + FourOctets(r.micros / 4294967296) + FourOctets(r.micros) + FourOctets(|r.payload|) + r.payload
  {
    LastFour(8, r.micros);
    LastFour(4, r.micros / 4294967296);
    LastFour(4, |r.payload|);
    hide FourOctets;
    assert BigEndian(0, r.micros / 4294967296 / 4294967296) == [] && BigEndian(0, |r.payload| / 4294967296) == [];
    hide BigEndian;
    assert LengthOf(r.payload) == |r.payload|;
  }
}
