/** The metadata of a store's root page: its encoding, the server's decoder, the page dump tool's
    independent decoder, and the rewriting of the entry point in place. */
module StorageMeta {
  import opened Wrappers
  import opened BigEndian

  const VERSION: Byte := 1
  const ENTRY_POINT_LEN: nat := 8
  const MIN_ENCODED_LEN: nat := 5

  type Ref = x: nat | x < 0x1_0000_0000_0000_0000

  datatype Meta = Meta(name: seq<Byte>, level: Byte, entryLevel: Byte, entryPoints: seq<Ref>)

  /** Name and entry points can be counted in one byte each. */
  predicate Encodable(m: Meta) {
    |m.name| < 256 && |m.entryPoints| < 256
  }

  function EncodedRefs(refs: seq<Ref>): (b: seq<Byte>)
    ensures |b| == |refs| * ENTRY_POINT_LEN
  {
    if refs == [] then [] else EncodedRefs(refs[..|refs| - 1]) + Bytes(refs[|refs| - 1], ENTRY_POINT_LEN)
  }

  function Encoded(m: Meta): (b: seq<Byte>)
    requires Encodable(m)
    ensures |b| == MIN_ENCODED_LEN + |m.name| + |m.entryPoints| * ENTRY_POINT_LEN
  {
    [VERSION, |m.name|] + m.name + [m.level, m.entryLevel, |m.entryPoints|] + EncodedRefs(m.entryPoints)
  }

  /** The data begins with an encoding of m; whatever follows is not looked at. */
  ghost predicate Holds(data: seq<Byte>, m: Meta) {
    Encodable(m) && Encoded(m) <= data
  }

  lemma RefAppended(refs: seq<Ref>, v: Ref)
    ensures EncodedRefs(refs + [v]) == EncodedRefs(refs) + Bytes(v, ENTRY_POINT_LEN)
  {
    assert (refs + [v])[..|refs|] == refs;
  }

  lemma NoRefs()
    ensures EncodedRefs([]) == []
  {
  }

  lemma SameParts(a: seq<Byte>, b: seq<Byte>, a': seq<Byte>, b': seq<Byte>)
    requires |a| == |a'| && a + b == a' + b'
    ensures a == a' && b == b'
  {
    assert a == (a + b)[..|a|] && b == (a + b)[|a|..];
  }

  lemma SameRef(v: Ref, v': Ref)
    requires Bytes(v, ENTRY_POINT_LEN) == Bytes(v', ENTRY_POINT_LEN)
    ensures v == v'
  {
    EightBytes();
    ValueOfBytes(v, ENTRY_POINT_LEN);
    ValueOfBytes(v', ENTRY_POINT_LEN);
  }

  lemma {:induction false} RefsAreUnique(refs: seq<Ref>, refs': seq<Ref>)
    requires |refs| == |refs'| && EncodedRefs(refs) == EncodedRefs(refs')
    ensures refs == refs'
  {
    hide EncodedRefs, Bytes;
    if refs != [] {
      var n := |refs| - 1;
      assert refs == refs[..n] + [refs[n]] && refs' == refs'[..n] + [refs'[n]];
      RefAppended(refs[..n], refs[n]);
      RefAppended(refs'[..n], refs'[n]);
      SameParts(EncodedRefs(refs[..n]), Bytes(refs[n], ENTRY_POINT_LEN), EncodedRefs(refs'[..n]),
                Bytes(refs'[n], ENTRY_POINT_LEN));
      RefsAreUnique(refs[..n], refs'[..n]);
      SameRef(refs[n], refs'[n]);
    }
  }

  lemma EightBytes()
    ensures Pow(8) == 0x1_0000_0000_0000_0000 && Pow(6) == 0x1_0000_0000_0000
  {
    assert Pow(4) == 0x1_0000_0000;
    assert Pow(6) == 0x1_0000_0000_0000;
  }

  /** The parts of an encoding, by position. */
  lemma Layout(m: Meta)
    requires Encodable(m)
    ensures var b, n := Encoded(m), |m.name|;
            && b[0] == VERSION && b[1] == n && b[2..2 + n] == m.name
            && b[2 + n] == m.level && b[3 + n] == m.entryLevel && b[4 + n] == |m.entryPoints|
            && b[5 + n..] == EncodedRefs(m.entryPoints)
  {
  }

  /** No data holds two different metadata, whatever follows them. */
  lemma HoldsOne(data: seq<Byte>, m: Meta, m': Meta)
    requires Holds(data, m) && Holds(data, m')
    ensures m == m'
  {
    Layout(m);
    Layout(m');
    assert data[1] == Encoded(m)[1] && data[1] == Encoded(m')[1];
    var n := |m.name|;
    assert data[4 + n] == Encoded(m)[4 + n] && data[4 + n] == Encoded(m')[4 + n];
    assert Encoded(m) == Encoded(m');
    RefsAreUnique(m.entryPoints, m'.entryPoints);
  }

  method Encode(m: Meta) returns (out: seq<Byte>)
    requires Encodable(m)
    ensures out == Encoded(m)
  {
    out := [VERSION] + [|m.name|] + m.name + [m.level] + [m.entryLevel] + [|m.entryPoints|];
    ghost var head := out;
    assert head == [VERSION, |m.name|] + m.name + [m.level, m.entryLevel, |m.entryPoints|];
    for i := 0 to |m.entryPoints|
      invariant out == head + EncodedRefs(m.entryPoints[..i])
    {
      var ref := Write(m.entryPoints[i], ENTRY_POINT_LEN);
      assert m.entryPoints[..i + 1][..i] == m.entryPoints[..i];
      out := out + ref;
    }
    assert m.entryPoints[..|m.entryPoints|] == m.entryPoints;
  }

  // ------------------------------------------------------------------------------------------
  // Decoding.

  /** Long enough for the name and the entry points it announces. */
  predicate WellFormed(data: seq<Byte>) {
    && |data| >= 2 && data[0] == VERSION
    && |data| >= MIN_ENCODED_LEN + data[1]
    && |data| >= MIN_ENCODED_LEN + data[1] + data[4 + data[1]] * ENTRY_POINT_LEN
  }

  lemma HoldsIsWellFormed(data: seq<Byte>, m: Meta)
    requires Holds(data, m)
    ensures WellFormed(data)
  {
    Layout(m);
    var b, n := Encoded(m), |m.name|;
    assert data[0] == b[0] && data[1] == b[1] && data[4 + n] == b[4 + n];
  }

  lemma RefValue(b: seq<Byte>)
    requires |b| == ENTRY_POINT_LEN
    ensures Value(b) < 0x1_0000_0000_0000_0000 && Bytes(Value(b), ENTRY_POINT_LEN) == b
  {
    BytesOfValue(b);
    EightBytes();
  }

  /** The refs read from consecutive entries encode to those entries. */
  lemma NextRef(data: seq<Byte>, at: nat, next: nat, refs: seq<Ref>)
    requires at <= next <= next + ENTRY_POINT_LEN <= |data| && EncodedRefs(refs) == data[at..next]
    ensures var v := Value(data[next..next + ENTRY_POINT_LEN]);
            v < 0x1_0000_0000_0000_0000 && EncodedRefs(refs + [v]) == data[at..next + ENTRY_POINT_LEN]
  {
    hide Value, Bytes, EncodedRefs;
    var b := data[next..next + ENTRY_POINT_LEN];
    RefValue(b);
    RefAppended(refs, Value(b));
    assert data[at..next + ENTRY_POINT_LEN] == data[at..next] + b;
  }

  lemma Assembled(data: seq<Byte>, m: Meta)
    requires WellFormed(data) && Encodable(m) && |m.name| == data[1] && m.name == data[2..2 + data[1]]
    requires m.level == data[2 + data[1]] && m.entryLevel == data[3 + data[1]] && |m.entryPoints| == data[4 + data[1]]
    requires EncodedRefs(m.entryPoints) == data[5 + data[1]..5 + data[1] + |m.entryPoints| * ENTRY_POINT_LEN]
    ensures Holds(data, m)
  {
    var b, n := Encoded(m), |m.name|;
    Layout(m);
    assert data[..|b|] == data[..2] + data[2..2 + n] + data[2 + n..5 + n] + data[5 + n..|b|];
    assert b == b[..2] + b[2..2 + n] + b[2 + n..5 + n] + b[5 + n..];
    assert data[..2] == b[..2] && data[2 + n..5 + n] == b[2 + n..5 + n];
  }

  /** The server's decoder: it reads back exactly what data holds, and fails exactly when data holds nothing. */
  method Decode(data: seq<Byte>) returns (r: Option<Meta>)
    ensures r.Some? ==> Holds(data, r.value)
    ensures r.None? <==> !WellFormed(data)
  {
    hide EncodedRefs, Value, Encoded, Holds;
    var p, rem := 0, |data|;
    if rem < 1 || data[p] != VERSION {
      return None;
    }
    p, rem := p + 1, rem - 1;
    if rem < 1 {
      return None;
    }
    var nameLen := data[p];
    p, rem := p + 1, rem - 1;
    if rem < nameLen {
      return None;
    }
    var name := data[p..p + nameLen];
    p, rem := p + nameLen, rem - nameLen;
    if rem < 1 {
      return None;
    }
    var level := data[p];
    p, rem := p + 1, rem - 1;
    if rem < 1 {
      return None;
    }
    var entryLevel := data[p];
    p, rem := p + 1, rem - 1;
    if rem < 1 {
      return None;
    }
    var count := data[p];
    p, rem := p + 1, rem - 1;
    if rem < count * ENTRY_POINT_LEN {
      return None;
    }
    ghost var first := p;
    var refs: seq<Ref> := [];
    NoRefs();
    while |refs| < count
      invariant |refs| <= count && p == first + |refs| * ENTRY_POINT_LEN && rem == |data| - p
      invariant EncodedRefs(refs) == data[first..p]
      decreases count - |refs|
    {
      NextRef(data, first, p, refs);
      var v := Read(data[p..p + ENTRY_POINT_LEN]);
      refs := refs + [v];
      p, rem := p + ENTRY_POINT_LEN, rem - ENTRY_POINT_LEN;
    }
    var m := Meta(name, level, entryLevel, refs);
    Assembled(data, m);
    return Some(m);
  }

  datatype ParseError =
    EmptyData | BadVersion(version: Byte) | NoNameLength | CutName | CutLevels | NoCount | CutEntryPoints

  datatype ParseResult = Parsed(meta: Meta) | Failed(error: ParseError)

  /** The page dump tool's decoder. */
  method Parse(raw: seq<Byte>) returns (r: ParseResult)
    ensures r.Parsed? ==> Holds(raw, r.meta)
    ensures r.Failed? <==> !WellFormed(raw)
    ensures r.Failed? ==>
              match r.error
              case EmptyData => raw == []
              case BadVersion(v) => raw != [] && raw[0] == v != VERSION
              case NoNameLength => |raw| == 1
              case CutName => |raw| >= 2 && |raw| - 2 < raw[1]
              case CutLevels => |raw| >= 2 && 0 <= |raw| - 2 - raw[1] < 2
              case NoCount => |raw| >= 2 && |raw| - 4 == raw[1]
              case CutEntryPoints =>
                && |raw| >= 2 && |raw| - 5 >= raw[1] && |raw| - 5 - raw[1] < raw[4 + raw[1]] * ENTRY_POINT_LEN
  {
    hide EncodedRefs, Value, Encoded, Holds;
    var p, rem := 0, |raw|;
    if rem < 1 {
      return Failed(EmptyData);
    }
    var version := raw[p];
    p, rem := p + 1, rem - 1;
    if version != VERSION {
      return Failed(BadVersion(version));
    }
    if rem < 1 {
      return Failed(NoNameLength);
    }
    var nameLen := raw[p];
    p, rem := p + 1, rem - 1;
    if rem < nameLen {
      return Failed(CutName);
    }
    var name := raw[p..p + nameLen];
    p, rem := p + nameLen, rem - nameLen;
    if rem < 2 {
      return Failed(CutLevels);
    }
    var level, entryLevel := raw[p], raw[p + 1];
    p, rem := p + 2, rem - 2;
    if rem < 1 {
      return Failed(NoCount);
    }
    var count := raw[p];
    p, rem := p + 1, rem - 1;
    if rem < count * ENTRY_POINT_LEN {
      return Failed(CutEntryPoints);
    }
    ghost var first := p;
    var refs: seq<Ref> := [];
    NoRefs();
    while |refs| < count
      invariant |refs| <= count && p == first + |refs| * ENTRY_POINT_LEN
      invariant EncodedRefs(refs) == raw[first..p]
      decreases count - |refs|
    {
      NextRef(raw, first, p, refs);
      var v := Read(raw[p..p + ENTRY_POINT_LEN]);
      refs := refs + [v];
      p := p + ENTRY_POINT_LEN;
    }
    var m := Meta(name, level, entryLevel, refs);
    Assembled(raw, m);
    return Parsed(m);
  }

  /** Decoding undoes encoding, with anything after it. */
  method RoundTrip(m: Meta, tail: seq<Byte>) returns (r: Option<Meta>)
    requires Encodable(m)
    ensures r == Some(m)
  {
    var data := Encode(m);
    r := Decode(data + tail);
    HoldsIsWellFormed(data + tail, m);
    HoldsOne(data + tail, m, r.value);
  }

  /** The two decoders agree on every input. */
  method DecodersAgree(data: seq<Byte>) returns (server: Option<Meta>, tool: ParseResult)
    ensures server.Some? <==> tool.Parsed?
    ensures server.Some? ==> server.value == tool.meta
  {
    server := Decode(data);
    tool := Parse(data);
    if server.Some? {
      HoldsOne(data, server.value, tool.meta);
    }
  }

  // ------------------------------------------------------------------------------------------
  // The entry point, rewritten in place.

  datatype Rewrite = Rewritten(metadata: seq<Byte>) | Undecodable | WrongLength

  /** The stored metadata with another entry level and entry point. The root page refuses metadata
      of another length than it was formatted with, since every later field's place depends on it. */
  method SetEntryPoint(stored: seq<Byte>, ref: Ref, level: Byte) returns (r: Rewrite)
    ensures r.Undecodable? <==> !WellFormed(stored)
    ensures r.Rewritten? <==> WellFormed(stored) && |stored| == MIN_ENCODED_LEN + stored[1] + ENTRY_POINT_LEN
    ensures r.Rewritten? ==>
              && |r.metadata| == |stored|
              && exists m :: Holds(stored, m) && r.metadata == Encoded(m.(entryLevel := level, entryPoints := [ref]))
  {
    var decoded := Decode(stored);
    if decoded.None? {
      return Undecodable;
    }
    var m := decoded.value;
    NameLength(stored, m);
    m := m.(entryLevel := level, entryPoints := [ref]);
    var encoded := Encode(m);
    if |encoded| != |stored| {
      return WrongLength;
    }
    return Rewritten(encoded);
  }

  lemma NameLength(data: seq<Byte>, m: Meta)
    requires Holds(data, m)
    ensures |data| >= 2 && data[1] == |m.name|
  {
    Layout(m);
    assert data[1] == Encoded(m)[1];
  }

  /** Metadata written with one entry point can always be rewritten, and keeps one entry point:
      the root page never refuses the update. */
  lemma OneEntryPointIsEnough(m: Meta)
    requires Encodable(m)
    ensures WellFormed(Encoded(m))
    ensures |Encoded(m)| == MIN_ENCODED_LEN + Encoded(m)[1] + ENTRY_POINT_LEN <==> |m.entryPoints| == 1
  {
    HoldsIsWellFormed(Encoded(m), m);
    Layout(m);
  }
}
