/** Where the three reel values come from: the backend the player picked in
    the drop-down, and how each backend's raw output becomes a triple. */
module Decoding {
  import opened SlotTypes
  import opened Digits

  /** The names the drop-down offers. */
  const Simulator := "qasm_simulator"
  const Device := "ibmqx2"
  const AnuQrng := "ANU QRNG"

  predicate KnownBackend(name: string) {
    name == Simulator || name == Device || name == AnuQrng
  }

  /** What the outside world answered for one pull: the single measured
      outcome of the simulator's 9-qubit circuit, and the `data` list of the
      ANU service's JSON reply. Only the one the chosen backend asks for is
      read. */
  datatype Entropy = Entropy(counts: string, anuData: seq<string>)

  // ------------------------------------------------------------- simulator

  /** The simulator branch: the 9-bit outcome cut into three big-endian 3-bit
      numbers, with Python's `int(_, 2)` on each slice. */
  function SimulatorTriple(counts: string): (r: Result<Triple>)
    ensures r.Ok? ==> InReelRange(r.value)
    ensures r.Err? ==> r.error == ValueError
  {
    var a := ParseBin(Slice(counts, 0, 3));
    var b := ParseBin(Slice(counts, 3, 6));
    var c := ParseBin(Slice(counts, 6, 9));
    if a.Err? then Err(a.error)
    else if b.Err? then Err(b.error)
    else if c.Err? then Err(c.error)
    else
      assert Pow2(3) == 8;
      Pow2Monotone(|Slice(counts, 0, 3)|, 3);
      Pow2Monotone(|Slice(counts, 3, 6)|, 3);
      Pow2Monotone(|Slice(counts, 6, 9)|, 3);
      Ok(Triple(a.value, b.value, c.value))
  }

  /** The 9-bit rendering of a triple of 3-bit numbers, first reel first. */
  function EncodeTriple(t: Triple): (s: string)
    requires InReelRange(t)
    ensures |s| == 9 && IsBinary(s)
  {
    ToBin(t.a, 3) + ToBin(t.b, 3) + ToBin(t.c, 3)
  }

  /** A 9-character outcome decodes exactly when it is all binary digits, and
      then re-encoding the three numbers gives the outcome back. */
  lemma SimulatorDecodeEncode(counts: string)
    requires |counts| == 9
    ensures SimulatorTriple(counts).Ok? <==> IsBinary(counts)
    ensures SimulatorTriple(counts).Ok? ==> EncodeTriple(SimulatorTriple(counts).value) == counts
  {
    var s0, s1, s2 := counts[0..3], counts[3..6], counts[6..9];
    assert counts == s0 + s1 + s2;
    assert Slice(counts, 0, 3) == s0 && Slice(counts, 3, 6) == s1 && Slice(counts, 6, 9) == s2;
    if IsBinary(counts) {
      assert IsBinary(s0) && IsBinary(s1) && IsBinary(s2);
      BinValueToBin(s0);
      BinValueToBin(s1);
      BinValueToBin(s2);
    } else {
      var i :| 0 <= i < 9 && !IsBit(counts[i]);
      if i < 3 { assert !IsBit(s0[i]); }
      else if i < 6 { assert !IsBit(s1[i - 3]); }
      else { assert !IsBit(s2[i - 6]); }
    }
  }

  /** Every triple of 3-bit numbers is the decoding of its own rendering. */
  lemma SimulatorEncodeDecode(t: Triple)
    requires InReelRange(t)
    ensures SimulatorTriple(EncodeTriple(t)) == Ok(t)
  {
    var s := EncodeTriple(t);
    assert s[0..3] == ToBin(t.a, 3) && s[3..6] == ToBin(t.b, 3) && s[6..9] == ToBin(t.c, 3);
    assert Pow2(3) == 8;
    ToBinValue(t.a, 3);
    ToBinValue(t.b, 3);
    ToBinValue(t.c, 3);
  }

  /** An outcome shorter than seven characters leaves the last slice empty,
      and `int('', 2)` raises. */
  lemma SimulatorShortOutcome(counts: string)
    requires |counts| < 7
    ensures SimulatorTriple(counts).Err?
  {
    assert Slice(counts, 6, 9) == [];
  }

  // ------------------------------------------------------------------- ANU

  /** One ANU number reduced to a reel value: its binary digits, zero-padded
      to eight, of which the first three are read back as a number. */
  function AnuValue(v: nat): (r: nat)
    ensures r <= 7
  {
    TopThree(PyBin(v))
  }

  /** The first three of a binary string's digits once it is zero-padded to
      eight, as a number. */
  function TopThree(bits: string): (r: nat)
    requires IsBinary(bits)
    ensures r <= 7
  {
    var top := Take(ZFill(bits, 8), 3);
    assert Pow2(|top|) == 8;
    BinValue(top)
  }

  lemma TopThreeShort(bits: string)
    requires IsBinary(bits) && |bits| <= 8
    ensures TopThree(bits) == BinValue(bits) / 32
  {
    var padded := ZFill(bits, 8);
    assert BinValue(padded) == BinValue(bits) by {
      if |bits| < 8 {
        LeadingZerosValue(8 - |bits|, bits);
      }
    }
    PrefixValue(padded, 3);
    assert Pow2(5) == 32;
  }

  lemma TopThreeLong(bits: string)
    requires IsBinary(bits) && |bits| >= 9
    ensures TopThree(bits) == BinValue(bits) / Pow2(|bits| - 3)
  {
    var padded := ZFill(bits, 8);
    assert padded == bits;
    var top := Take(padded, 3);
    assert top == bits[..3];
    assert TopThree(bits) == BinValue(top);
    PrefixValue(bits, 3);
  }

  /** When the leading digit of a long binary string is a one, its top three
      digits read 4..7. */
  lemma TopThreeLeadingOne(bits: string)
    requires IsBinary(bits) && |bits| >= 9
    requires Pow2(|bits| - 1) <= BinValue(bits)
    ensures 4 <= TopThree(bits) <= 7
  {
    var v, u := BinValue(bits), Pow2(|bits| - 3);
    TopThreeLong(bits);
    Pow2Split(|bits|);
    QuotientOfLeadingOne(v, u);
  }

  /** For a byte the reel value is its top three bits. */
  lemma AnuByte(v: nat)
    requires v < 256
    ensures AnuValue(v) == v / 32
  {
    assert Pow2(8) == 256;
    PyBinFits(v, 8);
    PyBinValue(v);
    TopThreeShort(PyBin(v));
  }

  /** A number above a byte is not cut to eight digits: the reel value is the
      number's own three leading binary digits, and since the first of them
      is a one it is always 4..7. */
  lemma AnuWide(v: nat)
    requires v >= 256
    ensures |PyBin(v)| >= 9
    ensures AnuValue(v) == v / Pow2(|PyBin(v)| - 3)
    ensures 4 <= AnuValue(v) <= 7
  {
    var bits := PyBin(v);
    assert Pow2(8) == 256;
    PyBinFits(v, 8);
    PyBinValue(v);
    TopThreeLong(bits);
    TopThreeLeadingOne(bits);
  }

  lemma Pow2Split(n: nat)
    requires n >= 3
    ensures Pow2(n - 1) == 4 * Pow2(n - 3) && Pow2(n) == 8 * Pow2(n - 3)
  {
    assert Pow2(n - 1) == 2 * Pow2(n - 2);
    assert Pow2(n - 2) == 2 * Pow2(n - 3);
  }

  /** A number of the form 1xx followed by lower digits, divided by the unit
      of the lowest of the three leading digits, leaves 4..7. */
  lemma QuotientOfLeadingOne(v: nat, unit: nat)
    requires unit > 0 && 4 * unit <= v < 8 * unit
    ensures 4 <= v / unit <= 7
  {
    var q, r := v / unit, v % unit;
    assert v == unit * q + r;
    if q < 4 {
      MulMonotone(unit, q, 3);
    } else if q > 7 {
      MulMonotone(unit, 8, q);
    }
  }

  lemma {:induction false} MulMonotone(u: nat, x: nat, y: nat)
    requires x <= y
    ensures u * x <= u * y
    decreases y - x
  {
    if x < y {
      MulMonotone(u, x + 1, y);
      assert u * (x + 1) == u * x + u;
    }
  }

  /** Python's `[int(s, 16) for s in xs]`: every string parsed, or the
      ValueError of the first one that is not hexadecimal. */
  function ParseHexAll(xs: seq<string>): (r: Result<seq<nat>>)
    ensures r.Ok? <==> forall i :: 0 <= i < |xs| ==> ParseHex(xs[i]).Ok?
    ensures r.Ok? ==> |r.value| == |xs| && forall i :: 0 <= i < |xs| ==> ParseHex(xs[i]) == Ok(r.value[i])
    ensures r.Err? ==> r.error == ValueError
  {
    if xs == [] then Ok([])
    else
      var head := ParseHex(xs[0]);
      var tail := ParseHexAll(xs[1..]);
      if head.Err? then Err(head.error)
      else if tail.Err? then
        assert forall i :: 0 <= i < |xs[1..]| ==> xs[1..][i] == xs[i + 1];
        Err(tail.error)
      else
        var ns := [head.value] + tail.value;
        assert forall i :: 1 <= i < |xs| ==> xs[i] == xs[1..][i - 1] && ns[i] == tail.value[i - 1];
        Ok(ns)
  }

  /** The list parses to `ns` when each entry parses to its number. */
  lemma ParseHexAllOf(xs: seq<string>, ns: seq<nat>)
    requires |xs| == |ns|
    requires forall i :: 0 <= i < |xs| ==> ParseHex(xs[i]) == Ok(ns[i])
    ensures ParseHexAll(xs) == Ok(ns)
  {
    var r := ParseHexAll(xs);
    assert r.Ok?;
    assert r.value == ns;
  }

  /** The ANU branch: every entry of the reply parsed as hexadecimal, then the
      first three reduced to reel values. */
  function AnuTriple(data: seq<string>): (r: Result<Triple>)
    ensures r.Ok? <==> |data| >= 3 && ParseHexAll(data).Ok?
    ensures r.Ok? ==> InReelRange(r.value)
    ensures r.Err? && ParseHexAll(data).Ok? ==> r.error == IndexError
  {
    var vs := ParseHexAll(data);
    if vs.Err? then Err(vs.error)
    else if |vs.value| < 3 then Err(IndexError)
    else Ok(Triple(AnuValue(vs.value[0]), AnuValue(vs.value[1]), AnuValue(vs.value[2])))
  }

  /** A reply in the service's `hex16` format, one byte per entry written as
      two hexadecimal digits (`"0c"` as well as `"ff"`), shows each byte's
      top three bits. */
  lemma AnuBytesTriple(sx: string, sy: string, sz: string)
    requires |sx| == 2 && IsHex(sx)
    requires |sy| == 2 && IsHex(sy)
    requires |sz| == 2 && IsHex(sz)
    ensures AnuTriple([sx, sy, sz]) == Ok(Triple(HexValue(sx) / 32, HexValue(sy) / 32, HexValue(sz) / 32))
  {
    var data := [sx, sy, sz];
    var x, y, z := HexValue(sx), HexValue(sy), HexValue(sz);
    assert ParseHexAll(data) == Ok([x, y, z]) by {
      ParseHexDigits(sx);
      ParseHexDigits(sy);
      ParseHexDigits(sz);
      ParseHexAllOf(data, [x, y, z]);
    }
    assert AnuTriple(data) == Ok(Triple(AnuValue(x), AnuValue(y), AnuValue(z)));
    HexByte(sx);
    HexByte(sy);
    HexByte(sz);
    AnuByte(x);
    AnuByte(y);
    AnuByte(z);
  }

  /** A byte below 16 arrives with its leading zero digit and still decodes:
      0x0c shows a bell, 0xff a seven and 0x80 an orange. */
  lemma AnuReplyExample()
    ensures AnuTriple(["0c", "ff", "80"]) == Ok(Triple(0, 7, 4))
  {
    var sx, sy, sz := "0c", "ff", "80";
    HexByte(sx);
    HexByte(sy);
    HexByte(sz);
    assert HexValue(sx) == 12 && HexValue(sy) == 255 && HexValue(sz) == 128;
    AnuBytesTriple(sx, sy, sz);
  }

  // ------------------------------------------------------ device prefetch

  /** The device's job memory as `hex` renders it, one string per shot. */
  function DeviceMemory(ns: seq<nat>): (m: seq<string>)
    ensures |m| == |ns|
  {
    seq(|ns|, i requires 0 <= i < |ns| => "0x" + ToHex(ns[i]))
  }

  /** Parsing the device's memory recovers the measured numbers, in order. */
  lemma DeviceMemoryParses(ns: seq<nat>)
    ensures ParseHexAll(DeviceMemory(ns)) == Ok(ns)
  {
    var m := DeviceMemory(ns);
    forall i | 0 <= i < |ns| ensures ParseHex(m[i]) == Ok(ns[i]) {
      HexRoundTrip(ns[i]);
    }
    ParseHexAllOf(m, ns);
  }

  /** What serving one pull does: the reel values (or the exception), the
      buffer left behind, and whether a refill was requested. */
  datatype Draw = Draw(triple: Result<Triple>, rest: seq<int>, refill: bool)

  /** The device branch: three `pop(0)` calls, then a refill request when the
      buffer is left empty. A pop from an empty list raises IndexError after
      the earlier pops have already removed what was there. */
  function TakeTriple(stored: seq<int>): (d: Draw)
    ensures d.triple.Ok? <==> |stored| >= 3
    ensures d.triple.Ok? ==> [d.triple.value.a, d.triple.value.b, d.triple.value.c] + d.rest == stored
    ensures d.triple.Err? ==> d.triple.error == IndexError && d.rest == []
    ensures d.refill <==> d.triple.Ok? && d.rest == []
  {
    if |stored| >= 3 then Draw(Ok(Triple(stored[0], stored[1], stored[2])), stored[3..], |stored| == 3)
    else Draw(Err(IndexError), [], false)
  }

  /** The reel values of several pulls in a row, concatenated. */
  function Flatten(ts: seq<Triple>): (s: seq<int>)
    ensures |s| == 3 * |ts|
  {
    if ts == [] then [] else [ts[0].a, ts[0].b, ts[0].c] + Flatten(ts[1..])
  }

  /** The draws of `n` pulls in a row from the device buffer. */
  function TakeTriples(stored: seq<int>, n: nat): (ds: seq<Draw>)
    ensures |ds| == n
    decreases n
  {
    if n == 0 then []
    else var d := TakeTriple(stored); [d] + TakeTriples(d.rest, n - 1)
  }

  /** The reel values the draws showed, skipping the ones that raised. */
  function Shown(ds: seq<Draw>): seq<Triple>
  {
    if ds == [] then []
    else (if ds[0].triple.Ok? then [ds[0].triple.value] else []) + Shown(ds[1..])
  }

  /** Pulling `n` times from a buffer holding at least `3 n` values serves
      every pull, and each pull leaves the buffer's remaining values in
      order; so a refill is requested on exactly the pull that empties it. */
  lemma {:induction false} TakeTriplesServe(stored: seq<int>, n: nat)
    requires 3 * n <= |stored|
    ensures forall i :: 0 <= i < n ==>
              var d := TakeTriples(stored, n)[i];
              d.triple.Ok? && d.rest == stored[3 * (i + 1)..] && (d.refill <==> 3 * (i + 1) == |stored|)
  {
    if n > 0 {
      var rest := TakeTriple(stored).rest;
      TakeTriplesServe(rest, n - 1);
      var ds := TakeTriples(stored, n);
      var tail := TakeTriples(rest, n - 1);
      assert ds[1..] == tail;
      forall i | 1 <= i < n
        ensures ds[i].triple.Ok? && ds[i].rest == stored[3 * (i + 1)..]
      {
        assert ds[i] == tail[i - 1];
        assert rest[3 * i..] == stored[3 * (i + 1)..];
      }
    }
  }

  /** The values shown by those `n` pulls are the buffer's first `3 n`
      values, in order. */
  lemma {:induction false} TakeTriplesInOrder(stored: seq<int>, n: nat)
    requires 3 * n <= |stored|
    ensures Flatten(Shown(TakeTriples(stored, n))) == stored[..3 * n]
  {
    if n > 0 {
      var d := TakeTriple(stored);
      TakeTriplesInOrder(d.rest, n - 1);
      var ds := TakeTriples(stored, n);
      assert ds[1..] == TakeTriples(d.rest, n - 1);
      var ts := Shown(ds);
      assert ts == [d.triple.value] + Shown(TakeTriples(d.rest, n - 1));
      assert ts[1..] == Shown(TakeTriples(d.rest, n - 1));
      assert stored[..3 * n] == stored[..3] + d.rest[..3 * (n - 1)];
    }
  }

  // -------------------------------------------------------- the dispatch

  /** `get_slot_values`: dispatch on the backend name; only the device branch
      touches the buffer, and an unknown name raises. */
  function SlotValues(backend: string, stored: seq<int>, e: Entropy): (d: Draw)
    ensures backend != Device ==> d.rest == stored && !d.refill
    ensures !KnownBackend(backend) <==> d.triple == Err(InvalidBackend)
    ensures backend != Device && d.triple.Ok? ==> InReelRange(d.triple.value)
  {
    if backend == Simulator then Draw(SimulatorTriple(e.counts), stored, false)
    else if backend == Device then TakeTriple(stored)
    else if backend == AnuQrng then Draw(AnuTriple(e.anuData), stored, false)
    else Draw(Err(InvalidBackend), stored, false)
  }
}
