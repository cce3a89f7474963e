/** Static embedding models: the tensor file, reading it, and rewriting the matrix with one byte per entry. */
module Quantize {
  import opened Wrappers
  import opened TensorBytes

  /** A floating-point number is carried by its bits. */
  type Bits = nat
  type Int8 = x: int | -128 <= x < 128

  const WORD := 0x1_0000_0000_0000_0000

  datatype Meta = Meta(dtype: string, shape: seq<nat>, start: int, end: int)

  /** A header as decoded; a tensor's own description may be malformed. */
  type Header = map<string, Option<Meta>>

  /** The header's text form. */
  datatype Codec = Codec(encode: map<string, Meta> -> seq<Byte>, decode: seq<Byte> -> Option<Header>)

  /** Exactly one of matrix and quant is present. */
  datatype Tensors = Tensors(matrix: Option<seq<Bits>>, quant: Option<seq<Int8>>, scales: seq<Bits>, rows: nat,
    dim: nat,
                             weights: Option<seq<Bits>>, mapping: Option<seq<int>>)

  // ---------------------------------------------------------------- signed numbers

  function ToByte(v: Int8): Byte
  {
    v % 256
  }

  function FromByte(b: Byte): Int8
  {
    if b < 128 then b else b - 256
  }

  function ToWord(v: int): nat
  {
    v % WORD
  }

  function FromWord(x: nat): int
  {
    if x < WORD / 2 then x else x - WORD
  }

  function ToBytes(q: seq<Int8>): seq<Byte>
  {
    seq(|q|, i requires 0 <= i < |q| => ToByte(q[i]))
  }

  function FromBytes(b: seq<Byte>): seq<Int8>
  {
    seq(|b|, i requires 0 <= i < |b| => FromByte(b[i]))
  }

  function ToWords(m: seq<int>): seq<nat>
  {
    seq(|m|, i requires 0 <= i < |m| => ToWord(m[i]))
  }

  function FromWords(x: seq<nat>): seq<int>
  {
    seq(|x|, i requires 0 <= i < |x| => FromWord(x[i]))
  }

  lemma SignedRoundTrip(q: seq<Int8>, m: seq<int>)
    requires forall i | 0 <= i < |m| :: -WORD / 2 <= m[i] < WORD / 2
    ensures FromBytes(ToBytes(q)) == q && FromWords(ToWords(m)) == m
  {
    assert forall i | 0 <= i < |q| :: FromByte(ToByte(q[i])) == q[i];
    assert forall i | 0 <= i < |m| :: FromWord(ToWord(m[i])) == m[i];
  }

  // ---------------------------------------------------------------- reading

  datatype Fetch = Absent | Bad | Found(bytes: seq<Byte>, meta: Meta)

  /** The bytes and the description of a named tensor. */
  function Tensor(raw: seq<Byte>, header: Header, base: nat, name: string): Fetch
  {
    if name !in header then Absent
    else if header[name].None? then Bad
    else
      var m := header[name].value;
      if m.start < 0 || base + m.end > |raw| || m.end < m.start then Bad
      else Found(raw[base + m.start..base + m.end], m)
  }

  predicate IsVector(f: Fetch, dtype: string, rows: nat, width: nat)
  {
    f.Found? && f.meta.dtype == dtype && f.meta.shape == [rows] && |f.bytes| == rows * width
  }

  predicate Identity(m: seq<int>)
  {
    forall i | 0 <= i < |m| :: m[i] == i
  }

  predicate InRange(m: seq<int>, rows: nat)
  {
    forall i | 0 <= i < |m| :: 0 <= m[i] < rows
  }

  /** The matrix, and for a matrix of bytes its scales. */
  function LoadMatrix(raw: seq<Byte>, header: Header, base: nat): Option<Tensors>
  {
    match Tensor(raw, header, base, "embeddings")
    case Found(bytes, meta) =>
      if |meta.shape| != 2 then None
      else
        var rows, dim := meta.shape[0], meta.shape[1];
        if meta.dtype == "F32" then
          if |bytes| != rows * dim * 4 then None
          else Some(Tensors(Some(GetAll(bytes, 4)), None, [], rows, dim, None, None))
        else if meta.dtype == "I8" then
          var scales := Tensor(raw, header, base, "scales");
          if |bytes| != rows * dim || !IsVector(scales, "F32", rows, 4) then None
          else Some(Tensors(None, Some(FromBytes(bytes)), GetAll(scales.bytes, 4), rows, dim, None, None))
        else None
    case _ => None
  }

  function LoadWeights(raw: seq<Byte>, header: Header, base: nat, st: Tensors): Option<Tensors>
  {
    var f := Tensor(raw, header, base, "weights");
    if f.Absent? then Some(st)
    else if !IsVector(f, "F64", st.rows, 8) then None
    else Some(st.(weights := Some(GetAll(f.bytes, 8))))
  }

  /** A mapping is kept only when it maps some row elsewhere. */
  function LoadMapping(raw: seq<Byte>, header: Header, base: nat, st: Tensors): Option<Tensors>
  {
    var f := Tensor(raw, header, base, "mapping");
    if f.Absent? then Some(st)
    else if !IsVector(f, "I64", st.rows, 8) then None
    else
      var m := FromWords(GetAll(f.bytes, 8));
      if !InRange(m, st.rows) then None
      else if Identity(m) then Some(st)
      else Some(st.(mapping := Some(m)))
  }

  function LoadTensors(raw: seq<Byte>, header: Header, base: nat): Option<Tensors>
  {
    match LoadMatrix(raw, header, base)
    case None => None
    case Some(st) =>
      match LoadWeights(raw, header, base, st)
      case None => None
      case Some(weighted) => LoadMapping(raw, header, base, weighted)
  }

  /** The tensors of a file, or nothing when the file is malformed. */
  function Load(c: Codec, raw: seq<Byte>): Option<Tensors>
  {
    if |raw| < 8 || 8 + GetLE(raw[..8]) > |raw| then None
    else
      var base := 8 + GetLE(raw[..8]);
      match c.decode(raw[8..base])
      case None => None
      case Some(header) => LoadTensors(raw, header, base)
  }

  // ---------------------------------------------------------------- writing

  datatype TensorEntry = TensorEntry(name: string, dtype: string, shape: seq<nat>, data: seq<Byte>)

  /** The tensors of a quantized model in the order they are written. */
  function Entries(st: Tensors, q: seq<Int8>, scales: seq<Bits>): seq<TensorEntry>
  {
    [TensorEntry("embeddings", "I8", [st.rows, st.dim], ToBytes(q)),
      TensorEntry("scales", "F32", [st.rows], PutAll(scales, 4))] +
    (if st.weights.Some? then [TensorEntry("weights", "F64", [st.rows], PutAll(st.weights.value, 8))] else []) +
    (if st.mapping.Some? then [TensorEntry("mapping", "I64", [st.rows], PutAll(ToWords(st.mapping.value), 8))] else [])
  }

  function Body(entries: seq<TensorEntry>): seq<Byte>
  {
    if entries == [] then [] else Body(entries[..|entries| - 1]) + entries[|entries| - 1].data
  }

  /** Every tensor starts where the one before it ends. */
  function HeaderOf(entries: seq<TensorEntry>): map<string, Meta>
  {
    if entries == [] then map[]
    else
      var front, e := entries[..|entries| - 1], entries[|entries| - 1];
      HeaderOf(front)[e.name := Meta(e.dtype, e.shape, |Body(front)|, |Body(front)| + |e.data|)]
  }

  function Written(c: Codec, entries: seq<TensorEntry>): seq<Byte>
  {
    var header := c.encode(HeaderOf(entries));
    PutLE(|header|, 8) + header + Body(entries)
  }

  ghost predicate DistinctNames(entries: seq<TensorEntry>)
  {
    forall i, j | 0 <= i < j < |entries| :: entries[i].name != entries[j].name
  }

  /** The tensors lie one after the other in the body, without gap or overlap, and each is found at its own place. */
  lemma {:induction false} EntryIsFound(entries: seq<TensorEntry>, i: nat)
    requires DistinctNames(entries) && i < |entries|
    ensures var e := entries[i]; var start := |Body(entries[..i])|;
      && e.name in HeaderOf(entries) && HeaderOf(entries)[e.name] == Meta(e.dtype, e.shape, start, start + |e.data|)
      && start + |e.data| == |Body(entries[..i + 1])| <= |Body(entries)| &&
        Body(entries)[start..start + |e.data|] == e.data
    decreases |entries|
  {
    var front := entries[..|entries| - 1];
    if i < |front| {
      EntryIsFound(front, i);
      assert front[..i] == entries[..i] && front[..i + 1] == entries[..i + 1];
    } else {
      assert entries[..i + 1] == entries && entries[..i] == front;
    }
  }

  lemma {:induction false} OnlyEntriesAreFound(entries: seq<TensorEntry>, name: string)
    requires name in HeaderOf(entries)
    ensures exists i :: 0 <= i < |entries| && entries[i].name == name
  {
    var front := entries[..|entries| - 1];
    if name in HeaderOf(front) {
      OnlyEntriesAreFound(front, name);
    }
  }

  // ---------------------------------------------------------------- the round trip

  function Lifted(h: map<string, Meta>): Header
  {
    map k | k in h :: Some(h[k])
  }

  /** The text form of this header can be read back. */
  ghost predicate Faithful(c: Codec, h: map<string, Meta>)
  {
    c.decode(c.encode(h)) == Some(Lifted(h))
  }

  /** Decoding a written file finds its header, and the body behind it. */
  lemma HeaderIsRead(c: Codec, entries: seq<TensorEntry>)
    requires Faithful(c, HeaderOf(entries)) && |Written(c, entries)| < Power(8)
    ensures var raw := Written(c, entries); var base := 8 + |c.encode(HeaderOf(entries))|;
      && |raw| == base + |Body(entries)| && 8 + GetLE(raw[..8]) == base && raw[base..] == Body(entries)
      && c.decode(raw[8..base]) == Some(Lifted(HeaderOf(entries)))
  {
    hide Body, HeaderOf, Lifted, Power;
    var header := c.encode(HeaderOf(entries));
    var raw := Written(c, entries);
    PutThenGet(|header|, 8);
    hide PutLE, GetLE;
    assert raw[..8] == PutLE(|header|, 8);
    assert raw[8..8 + |header|] == header;
    assert raw[8 + |header|..] == Body(entries);
  }

  /** The header a quantized model is written with; it depends on the shape alone. */
  function StoredHeader(st: Tensors): map<string, Meta>
  {
    HeaderOf(Entries(st, seq(st.rows * st.dim, _ => 0), seq(st.rows, _ => 0)))
  }

  ghost predicate SameLayout(xs: seq<TensorEntry>, ys: seq<TensorEntry>)
  {
    |xs| == |ys| && forall i | 0 <= i < |xs| ::
      xs[i].name == ys[i].name && xs[i].dtype == ys[i].dtype && xs[i].shape == ys[i].shape &&
        |xs[i].data| == |ys[i].data|
  }

  /** The header says where the tensors lie, and nothing of what is in them. */
  lemma {:induction false} LayoutDecidesHeader(xs: seq<TensorEntry>, ys: seq<TensorEntry>)
    requires SameLayout(xs, ys)
    ensures HeaderOf(xs) == HeaderOf(ys) && |Body(xs)| == |Body(ys)|
    decreases |xs|
  {
    if xs != [] {
      LayoutDecidesHeader(xs[..|xs| - 1], ys[..|ys| - 1]);
    }
  }

  lemma ShapeDecidesHeader(st: Tensors, q: seq<Int8>, scales: seq<Bits>)
    requires |q| == st.rows * st.dim && |scales| == st.rows
    ensures HeaderOf(Entries(st, q, scales)) == StoredHeader(st)
  {
    hide PutAll, HeaderOf;
    var zeros: seq<Int8>, none: seq<Bits> := seq(st.rows * st.dim, _ => 0), seq(st.rows, _ => 0);
    PutAllLength(scales, 4);
    PutAllLength(none, 4);
    LayoutDecidesHeader(Entries(st, q, scales), Entries(st, zeros, none));
  }

  lemma TensorIsRead(raw: seq<Byte>, base: nat, entries: seq<TensorEntry>, i: nat)
    requires DistinctNames(entries) && i < |entries| && base <= |raw| && raw[base..] == Body(entries)
    ensures var f := Tensor(raw, Lifted(HeaderOf(entries)), base, entries[i].name); var e := entries[i];
      f.Found? && f.bytes == e.data && f.meta.dtype == e.dtype && f.meta.shape == e.shape
  {
    hide Body, HeaderOf, Tensor, DistinctNames;
    EntryIsFound(entries, i);
    var start, end := |Body(entries[..i])|, |Body(entries[..i])| + |entries[i].data|;
    SliceBehind(raw, base, start, end);
    TensorAt(raw, Lifted(HeaderOf(entries)), base, entries[i].name,
      Meta(entries[i].dtype, entries[i].shape, start, end));
  }

  lemma TensorAt(raw: seq<Byte>, header: Header, base: nat, name: string, m: Meta)
    requires name in header && header[name] == Some(m) && 0 <= m.start <= m.end && base + m.end <= |raw|
    ensures Tensor(raw, header, base, name) == Found(raw[base + m.start..base + m.end], m)
  {}

  lemma SliceBehind(raw: seq<Byte>, base: nat, start: nat, end: nat)
    requires base <= |raw| && start <= end <= |raw| - base
    ensures raw[base..][start..end] == raw[base + start..base + end]
  {}

  lemma TensorIsAbsent(raw: seq<Byte>, base: nat, entries: seq<TensorEntry>, name: string)
    requires forall i | 0 <= i < |entries| :: entries[i].name != name
    ensures Tensor(raw, Lifted(HeaderOf(entries)), base, name) == Absent
  {
    if name in HeaderOf(entries) {
      OnlyEntriesAreFound(entries, name);
    }
  }

  /** The shapes and widths a quantized model has. */
  ghost predicate Fits(st: Tensors, q: seq<Int8>, scales: seq<Bits>)
  {
    |q| == st.rows * st.dim && |scales| == st.rows && Narrow(scales, 4) &&
    (st.weights.Some? ==> |st.weights.value| == st.rows && Narrow(st.weights.value, 8)) &&
    (st.mapping.Some? ==> |st.mapping.value| == st.rows <= WORD / 2 && InRange(st.mapping.value, st.rows))
  }

  ghost predicate Narrow(xs: seq<Bits>, n: nat)
  {
    forall i | 0 <= i < |xs| :: xs[i] < Power(n)
  }

  lemma MatrixRoundTrips(raw: seq<Byte>, base: nat, st: Tensors, q: seq<Int8>, scales: seq<Bits>)
    requires Fits(st, q, scales) && base <= |raw| && raw[base..] == Body(Entries(st, q, scales))
    ensures LoadMatrix(raw, Lifted(HeaderOf(Entries(st, q, scales))), base) ==
      Some(Tensors(None, Some(q), scales, st.rows, st.dim, None, None))
  {
    hide HeaderOf, Body, Lifted;
    var entries := Entries(st, q, scales);
    TensorIsRead(raw, base, entries, 0);
    TensorIsRead(raw, base, entries, 1);
    hide Tensor;
    PutAllLength(scales, 4);
    PutAllThenGet(scales, 4);
    SignedRoundTrip(q, []);
  }

  lemma WeightsRoundTrip(raw: seq<Byte>, base: nat, st: Tensors, q: seq<Int8>, scales: seq<Bits>, loaded: Tensors)
    requires Fits(st, q, scales) && base <= |raw| && raw[base..] == Body(Entries(st, q, scales)) &&
      loaded.rows == st.rows
    ensures LoadWeights(raw, Lifted(HeaderOf(Entries(st, q, scales))), base, loaded.(weights := None)) ==
      Some(loaded.(weights := st.weights))
  {
    hide HeaderOf, Body, Lifted;
    var entries := Entries(st, q, scales);
    if st.weights.Some? {
      TensorIsRead(raw, base, entries, 2);
      hide Tensor;
      PutAllLength(st.weights.value, 8);
      PutAllThenGet(st.weights.value, 8);
    } else {
      TensorIsAbsent(raw, base, entries, "weights");
    }
  }

  /** The mapping a file keeps: none when it maps every row to itself. */
  function Kept(mapping: Option<seq<int>>): Option<seq<int>>
  {
    if mapping.Some? && Identity(mapping.value) then None else mapping
  }

  lemma MappingRoundTrips(raw: seq<Byte>, base: nat, st: Tensors, q: seq<Int8>, scales: seq<Bits>, loaded: Tensors)
    requires Fits(st, q, scales) && base <= |raw| && raw[base..] == Body(Entries(st, q, scales)) &&
      loaded.rows == st.rows
    ensures LoadMapping(raw, Lifted(HeaderOf(Entries(st, q, scales))), base, loaded.(mapping := None)) ==
      Some(loaded.(mapping := Kept(st.mapping)))
  {
    hide HeaderOf, Body, Lifted, PutAll, GetAll;
    var entries := Entries(st, q, scales);
    if st.mapping.Some? {
      TensorIsRead(raw, base, entries, |entries| - 1);
      hide Tensor;
      var m := st.mapping.value;
      WordsAreNarrow(m);
      PutAllLength(ToWords(m), 8);
      PutAllThenGet(ToWords(m), 8);
      SignedRoundTrip([], m);
    } else {
      TensorIsAbsent(raw, base, entries, "mapping");
    }
  }

  lemma WordsAreNarrow(m: seq<int>)
    ensures Narrow(ToWords(m), 8)
  {
    assert Power(8) == 256 * (256 * (256 * (256 * Power(4)))) == WORD;
  }

  /** Loading a written quantized model gives back the matrix, the scales, the weights and the mapping that were
      written, a mapping of every row to itself excepted. */
  lemma QuantizedFileRoundTrips(c: Codec, st: Tensors, q: seq<Int8>, scales: seq<Bits>)
    requires Fits(st, q, scales) && Faithful(c, HeaderOf(Entries(st, q, scales)))
    requires |Written(c, Entries(st, q, scales))| < Power(8)
    ensures Load(c, Written(c, Entries(st, q, scales))) ==
      Some(Tensors(None, Some(q), scales, st.rows, st.dim, st.weights, Kept(st.mapping)))
  {
    hide HeaderOf, Body, Lifted, Fits, Entries, LoadMatrix, LoadWeights, LoadMapping, Written, Kept, Faithful, Power;
    var entries := Entries(st, q, scales);
    HeaderIsRead(c, entries);
    var raw, base := Written(c, entries), 8 + |c.encode(HeaderOf(entries))|;
    var loaded := Tensors(None, Some(q), scales, st.rows, st.dim, None, None);
    MatrixRoundTrips(raw, base, st, q, scales);
    WeightsRoundTrip(raw, base, st, q, scales, loaded);
    MappingRoundTrips(raw, base, st, q, scales, loaded.(weights := st.weights));
  }

  // ---------------------------------------------------------------- one text form for all headers written

  /** What decides the header of a quantized model: its shape, and which parts it has. */
  function ShapeHeader(rows: nat, dim: nat, weighted: bool, mapped: bool): map<string, Meta>
  {
    StoredHeader(Tensors(None, None, [], rows, dim,
      if weighted then Some(seq(rows, _ => 0)) else None, if mapped then Some(seq(rows, _ => 0)) else None))
  }

  lemma HeaderIsOfShape(st: Tensors, q: seq<Int8>, scales: seq<Bits>)
    requires Fits(st, q, scales)
    ensures HeaderOf(Entries(st, q, scales)) == ShapeHeader(st.rows, st.dim, st.weights.Some?, st.mapping.Some?)
  {
    hide PutAll, HeaderOf;
    var zeros: seq<Int8>, none: seq<Bits> := seq(st.rows * st.dim, _ => 0), seq(st.rows, _ => 0);
    var ints: seq<int> := seq(st.rows, _ => 0);
    var bare := Tensors(None, None, [], st.rows, st.dim,
      if st.weights.Some? then Some(none) else None, if st.mapping.Some? then Some(ints) else None);
    PutAllLength(scales, 4);
    PutAllLength(none, 4);
    PutAllLength(none, 8);
    if st.weights.Some? {
      PutAllLength(st.weights.value, 8);
    }
    if st.mapping.Some? {
      PutAllLength(ToWords(st.mapping.value), 8);
      PutAllLength(ToWords(ints), 8);
    }
    LayoutDecidesHeader(Entries(st, q, scales), Entries(bare, zeros, none));
  }

  /** Eighteen bytes: the shape, and a byte for each part that may be missing. */
  function PackHeader(h: map<string, Meta>): seq<Byte>
  {
    if "embeddings" in h && |h["embeddings"].shape| == 2 then
      PutLE(h["embeddings"].shape[0], 8) + PutLE(h["embeddings"].shape[1], 8) +
      [if "weights" in h then 1 else 0, if "mapping" in h then 1 else 0]
    else []
  }

  function UnpackHeader(text: seq<Byte>): Option<Header>
  {
    if |text| != 18 then None
    else Some(Lifted(ShapeHeader(GetLE(text[..8]), GetLE(text[8..16]), text[16] == 1, text[17] == 1)))
  }

  lemma HeaderSaysShape(rows: nat, dim: nat, weighted: bool, mapped: bool)
    ensures var h := ShapeHeader(rows, dim, weighted, mapped);
      && "embeddings" in h && h["embeddings"].shape == [rows, dim]
      && ("weights" in h <==> weighted) && ("mapping" in h <==> mapped)
  {
    var zeros: seq<Int8>, none: seq<Bits> := seq(rows * dim, _ => 0), seq(rows, _ => 0);
    var bare := Tensors(None, None, [], rows, dim,
      if weighted then Some(seq(rows, _ => 0)) else None, if mapped then Some(seq(rows, _ => 0)) else None);
    EntryNames(bare, zeros, none);
    hide Entries, HeaderOf, Body, PutAll, DistinctNames;
    var entries := Entries(bare, zeros, none);
    EntryIsFound(entries, 0);
    NamesInHeader(entries, "weights");
    NamesInHeader(entries, "mapping");
  }

  lemma EntryNames(st: Tensors, q: seq<Int8>, scales: seq<Bits>)
    ensures var entries := Entries(st, q, scales);
      && DistinctNames(entries) && |entries| > 0 && entries[0].name == "embeddings" &&
        entries[0].shape == [st.rows, st.dim]
      && ((exists i :: 0 <= i < |entries| && entries[i].name == "weights") <==> st.weights.Some?)
      && ((exists i :: 0 <= i < |entries| && entries[i].name == "mapping") <==> st.mapping.Some?)
  {
    hide PutAll, ToBytes, ToWords;
    var entries := Entries(st, q, scales);
    assert st.weights.Some? ==> entries[2].name == "weights";
    assert st.mapping.Some? ==> entries[|entries| - 1].name == "mapping";
  }

  lemma NamesInHeader(entries: seq<TensorEntry>, name: string)
    requires DistinctNames(entries)
    ensures name in HeaderOf(entries) <==> exists i :: 0 <= i < |entries| && entries[i].name == name
  {
    hide HeaderOf, Body, DistinctNames;
    if i :| 0 <= i < |entries| && entries[i].name == name {
      EntryIsFound(entries, i);
    } else if name in HeaderOf(entries) {
      OnlyEntriesAreFound(entries, name);
    }
  }

  lemma PackedIsRead(rows: nat, dim: nat, weighted: bool, mapped: bool)
    requires rows < Power(8) && dim < Power(8)
    ensures var h := ShapeHeader(rows, dim, weighted, mapped);
      |PackHeader(h)| == 18 && UnpackHeader(PackHeader(h)) == Some(Lifted(h))
  {
    HeaderSaysShape(rows, dim, weighted, mapped);
    PutThenGet(rows, 8);
    PutThenGet(dim, 8);
    hide ShapeHeader, Lifted, Power, PutLE, GetLE;
    var text := PackHeader(ShapeHeader(rows, dim, weighted, mapped));
    assert text[..8] == PutLE(rows, 8) && text[8..16] == PutLE(dim, 8);
  }

  /** One text form reads back the header of every model whose width fits eight bytes, and if its tensors fit into a
      file behind the header, the round trip is about it. */
  lemma EveryModelCanBeWritten()
    ensures var c := Codec(PackHeader, UnpackHeader);
      forall st, q, scales | Fits(st, q, scales) && st.dim < Power(8) &&
        26 + |Body(Entries(st, q, scales))| < Power(8) ::
        Faithful(c, HeaderOf(Entries(st, q, scales))) && |Written(c, Entries(st, q, scales))| < Power(8)
  {
    hide Fits, Body, HeaderOf, Entries, Power, ShapeHeader, PackHeader, UnpackHeader;
    forall st, q, scales | Fits(st, q, scales) && st.dim < Power(8) && 26 + |Body(Entries(st, q, scales))| < Power(8)
      ensures var c := Codec(PackHeader, UnpackHeader);
        Faithful(c, HeaderOf(Entries(st, q, scales))) && |Written(c, Entries(st, q, scales))| < Power(8)
    {
      HeaderIsOfShape(st, q, scales);
      RowsAreWritten(st, q, scales);
      PackedIsRead(st.rows, st.dim, st.weights.Some?, st.mapping.Some?);
    }
  }

  lemma RowsAreWritten(st: Tensors, q: seq<Int8>, scales: seq<Bits>)
    requires Fits(st, q, scales)
    ensures st.rows <= |Body(Entries(st, q, scales))|
  {
    hide HeaderOf, PutAll, Body;
    var entries := Entries(st, q, scales);
    PutAllLength(scales, 4);
    EntryIsFound(entries, 1);
  }
}
