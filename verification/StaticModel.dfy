/** Reading a model file, quantizing its matrix row by row, and writing the result. */
module StaticModel {
  import opened Wrappers
  import opened TensorBytes
  import opened Quantize

  // ---------------------------------------------------------------- one row

  function Abs(x: real): real
  {
    if x < 0.0 then -x else x
  }

  /** The nearest integer, halves away from zero. */
  function Rounded(x: real): int
  {
    if x >= 0.0 then (x + 0.5).Floor else -((0.5 - x).Floor)
  }

  lemma RoundedIsNear(x: real)
    ensures Abs(x - Rounded(x) as real) <= 0.5
    ensures -127.0 <= x <= 127.0 ==> -127 <= Rounded(x) <= 127
  {}

  /** The value is within half a scale of its step. */
  predicate Near(v: real, scale: real, n: int)
  {
    -127 <= n <= 127 && Abs(v - scale * (n as real)) <= scale / 2.0
  }

  /** Every entry is within half a scale of its step, and the largest entry uses the whole range. */
  ghost predicate RowQuantized(row: seq<real>, scale: real, q: seq<Int8>)
  {
    |q| == |row| && scale >= 0.0 &&
    (forall j | 0 <= j < |row| :: Near(row[j], scale, q[j])) &&
    (forall j | 0 <= j < |row| :: Abs(row[j]) <= 127.0 * scale) &&
    (row != [] ==> exists j :: 0 <= j < |row| && Abs(row[j]) == 127.0 * scale)
  }

  lemma TimesIsMonotone(a: real, b: real, s: real)
    requires a <= b && s >= 0.0
    ensures a * s <= b * s
  {
    assert b * s - a * s == (b - a) * s;
  }

  lemma DivideIsBounded(v: real, x: real, bound: real, s: real)
    requires s > 0.0 && x * s == v && -bound * s <= v <= bound * s
    ensures -bound <= x <= bound
  {}

  lemma StepIsNear(v: real, scale: real)
    requires 0.0 < scale && Abs(v) <= 127.0 * scale
    ensures Near(v, scale, Rounded(v / scale)) && -127 <= Rounded(v / scale) <= 127
  {
    var x := v / scale;
    assert x * scale == v;
    DivideIsBounded(v, x, 127.0, scale);
    RoundedIsNear(x);
    hide Near, Rounded, Abs;
    NearFromStep(v, scale, x, Rounded(x));
  }

  lemma NearFromStep(v: real, scale: real, x: real, n: int)
    requires scale > 0.0 && x * scale == v && Abs(x - n as real) <= 0.5 && -127 <= n <= 127
    ensures Near(v, scale, n)
  {
    ErrorIsScaled(v, x, n as real, scale);
    HalfOfScale(x - n as real, scale, v - scale * (n as real));
    assert Abs(v - scale * (n as real)) <= scale / 2.0;
  }

  lemma HalfOfScale(d: real, scale: real, error: real)
    requires scale > 0.0 && Abs(d) <= 0.5 && error == d * scale
    ensures Abs(error) <= scale / 2.0
  {
    TimesIsMonotone(d, 0.5, scale);
    TimesIsMonotone(-0.5, d, scale);
  }

  lemma ErrorIsScaled(v: real, x: real, n: real, scale: real)
    requires x * scale == v
    ensures v - scale * n == (x - n) * scale
  {}

  /** The scale and the steps of one row. */
  method QuantizeRow(row: seq<real>) returns (scale: real, q: seq<Int8>)
    ensures RowQuantized(row, scale, q)
  {
    var maxAbs := 0.0;
    ghost var at := 0;
    for j := 0 to |row|
      invariant forall k | 0 <= k < j :: Abs(row[k]) <= maxAbs
      invariant if j == 0 then maxAbs == 0.0 && at == 0 else 0 <= at < j && Abs(row[at]) == maxAbs
    {
      if Abs(row[j]) > maxAbs {
        maxAbs := Abs(row[j]);
        at := j;
      }
    }
    q := seq(|row|, _ => 0);
    if maxAbs == 0.0 {
      forall j | 0 <= j < |row| ensures Near(row[j], 0.0, 0) {
        assert Abs(row[j]) == 0.0;
      }
      assert row != [] ==> Abs(row[at]) == 127.0 * 0.0;
      return 0.0, q;
    }
    scale := maxAbs / 127.0;
    assert maxAbs == 127.0 * scale && scale > 0.0;
    assert Abs(row[at]) == 127.0 * scale;
    for j := 0 to |row|
      invariant |q| == |row|
      invariant forall k | 0 <= k < j :: Near(row[k], scale, q[k])
    {
      hide Abs, Near, Rounded;
      StepIsNear(row[j], scale);
      var n := Rounded(row[j] / scale);
      q := q[j := if n < -127 then -127 else if n > 127 then 127 else n];
    }
  }

  // ---------------------------------------------------------------- the matrix

  /** The number a 32-bit pattern stands for, and the pattern nearest to a number. */
  datatype Floats = Floats(value: Bits -> real, round: real -> Bits)

  function Row<T>(s: seq<T>, r: nat, dim: nat): seq<T>
  {
    if r * dim + dim <= |s| then s[r * dim..r * dim + dim] else []
  }

  function Values(f: Floats, row: seq<Bits>): seq<real>
  {
    seq(|row|, j requires 0 <= j < |row| => f.value(row[j]))
  }

  /** Every row is quantized with its own scale. */
  ghost predicate MatrixQuantized(f: Floats, matrix: seq<Bits>, dim: nat, q: seq<Int8>, exact: seq<real>)
  {
    |q| == |matrix| == |exact| * dim &&
    forall r | 0 <= r < |exact| :: RowQuantized(Values(f, Row(matrix, r, dim)), exact[r], Row(q, r, dim))
  }

  /** A scale as stored; a row of zeros keeps the zero pattern. */
  function StoredScale(f: Floats, scale: real): Bits
  {
    if scale == 0.0 then 0 else f.round(scale)
  }

  function Stored(f: Floats, exact: seq<real>): seq<Bits>
  {
    seq(|exact|, r requires 0 <= r < |exact| => StoredScale(f, exact[r]))
  }

  lemma RowIsInside(r: nat, rows: nat, dim: nat)
    requires r < rows
    ensures 0 <= r * dim && r * dim + dim == (r + 1) * dim <= rows * dim
  {
    assert rows * dim == (r + 1) * dim + (rows - r - 1) * dim;
  }

  lemma RowOfLonger(q: seq<Int8>, steps: seq<Int8>, rows: nat, dim: nat, r: nat)
    requires |q| == rows * dim && |steps| == dim && r <= rows
    ensures Row(q + steps, r, dim) == if r < rows then Row(q, r, dim) else steps
  {
    if r < rows {
      RowIsInside(r, rows, dim);
    }
  }

  /** Steps and stored scales of a matrix of which every row is quantized. */
  ghost predicate Quantization(f: Floats, matrix: seq<Bits>, rows: nat, dim: nat, q: seq<Int8>, scales: seq<Bits>)
  {
    exists exact :: |exact| == rows && MatrixQuantized(f, matrix, dim, q, exact) && scales == Stored(f, exact)
  }

  /** Quantizes every row of a matrix. */
  method QuantizeMatrix(f: Floats, matrix: seq<Bits>, rows: nat, dim: nat) returns (q: seq<Int8>, scales: seq<Bits>)
    requires |matrix| == rows * dim
    ensures Quantization(f, matrix, rows, dim, q, scales)
  {
    q, scales := [], [];
    ghost var exact: seq<real> := [];
    for r := 0 to rows
      invariant |exact| == r && |q| == r * dim && scales == Stored(f, exact)
      invariant forall k | 0 <= k < r :: RowQuantized(Values(f, Row(matrix, k, dim)), exact[k], Row(q, k, dim))
    {
      hide RowQuantized, Row;
      var row := Row(matrix, r, dim);
      var scale, steps := QuantizeRow(Values(f, row));
      RowLength(matrix, rows, dim, r);
      StepsLength(Values(f, row), scale, steps);
      forall k | 0 <= k <= r ensures Row(q + steps, k, dim) == if k < r then Row(q, k, dim) else steps {
        RowOfLonger(q, steps, r, dim, k);
      }
      RowIsInside(r, r + 1, dim);
      q := q + steps;
      scales := scales + [StoredScale(f, scale)];
      exact := exact + [scale];
    }
    assert MatrixQuantized(f, matrix, dim, q, exact);
  }

  lemma RowLength(matrix: seq<Bits>, rows: nat, dim: nat, r: nat)
    requires |matrix| == rows * dim && r < rows
    ensures |Row(matrix, r, dim)| == dim
  {
    RowIsInside(r, rows, dim);
  }

  lemma StepsLength(row: seq<real>, scale: real, q: seq<Int8>)
    requires RowQuantized(row, scale, q)
    ensures |q| == |row|
  {}

  lemma NearAt(f: Floats, matrix: seq<Bits>, dim: nat, q: seq<Int8>, exact: seq<real>, r: nat, j: nat)
    requires MatrixQuantized(f, matrix, dim, q, exact) && r < |exact| && j < dim
    ensures 0 <= r * dim + j < |q| && |matrix| == |q| && Near(f.value(matrix[r * dim + j]), exact[r], q[r * dim + j])
  {
    hide RowQuantized, Row, Near;
    RowIsInside(r, |exact|, dim);
    RowAt(matrix, |exact|, dim, r, j);
    RowAt(q, |exact|, dim, r, j);
    NearInRow(Values(f, Row(matrix, r, dim)), exact[r], Row(q, r, dim), j);
  }

  /** Every entry of the matrix is within half its row's scale of scale times step, and no step exceeds 127. */
  lemma EntryIsNear(f: Floats, matrix: seq<Bits>, dim: nat, q: seq<Int8>, exact: seq<real>, r: nat, j: nat)
    requires MatrixQuantized(f, matrix, dim, q, exact) && r < |exact| && j < dim
    ensures 0 <= r * dim + j < |q| && -127 <= q[r * dim + j] <= 127
    ensures Abs(f.value(matrix[r * dim + j]) - exact[r] * (q[r * dim + j] as real)) <= exact[r] / 2.0
  {
    NearAt(f, matrix, dim, q, exact, r, j);
  }

  lemma RowAt<T>(s: seq<T>, rows: nat, dim: nat, r: nat, j: nat)
    requires |s| == rows * dim && r < rows && j < dim
    ensures |Row(s, r, dim)| == dim && 0 <= r * dim + j < |s| && Row(s, r, dim)[j] == s[r * dim + j]
  {
    RowIsInside(r, rows, dim);
  }

  lemma NearInRow(row: seq<real>, scale: real, q: seq<Int8>, j: nat)
    requires RowQuantized(row, scale, q) && j < |row|
    ensures |q| == |row| && Near(row[j], scale, q[j])
  {}

  // ---------------------------------------------------------------- the file

  /** The file holds the quantized matrix of the model, and its weights and mapping. */
  ghost predicate QuantizedFile(c: Codec, f: Floats, st: Tensors, out: seq<Byte>)
    requires st.matrix.Some?
  {
    exists q, scales ::
      Quantization(f, st.matrix.value, st.rows, st.dim, q, scales) && out == Written(c, Entries(st, q, scales))
  }

  /** Rewrites a model with its matrix quantized; a malformed or already quantized model is refused. */
  method QuantizeStatic(c: Codec, f: Floats, raw: seq<Byte>) returns (out: Option<seq<Byte>>)
    ensures out.Some? <==> Load(c, raw).Some? && Load(c, raw).value.matrix.Some?
    ensures out.Some? ==> QuantizedFile(c, f, Load(c, raw).value, out.value)
  {
    var loaded := LoadSafetensors(c, raw);
    if loaded.None? || loaded.value.matrix.None? {
      return None;
    }
    var st := loaded.value;
    LoadedIsShaped(c, raw);
    hide Load, Written, Entries, Quantization;
    var q, scales := QuantizeMatrix(f, st.matrix.value, st.rows, st.dim);
    var bytes := WriteStatic(c, st, q, scales);
    out := Some(bytes);
  }

  /** Lays the tensors out one after the other behind their header. */
  method WriteStatic(c: Codec, st: Tensors, q: seq<Int8>, scales: seq<Bits>) returns (out: seq<Byte>)
    ensures out == Written(c, Entries(st, q, scales))
  {
    var sb := EncodeAll(scales, 4);
    var entries := [TensorEntry("embeddings", "I8", [st.rows, st.dim], ToBytes(q)),
      TensorEntry("scales", "F32", [st.rows], sb)];
    if st.weights.Some? {
      var wb := EncodeAll(st.weights.value, 8);
      entries := entries + [TensorEntry("weights", "F64", [st.rows], wb)];
    }
    if st.mapping.Some? {
      var mb := EncodeAll(ToWords(st.mapping.value), 8);
      entries := entries + [TensorEntry("mapping", "I64", [st.rows], mb)];
    }
    assert entries == Entries(st, q, scales);
    out := LayOut(c, entries);
  }

  /** The running offset gives every tensor its place. */
  method LayOut(c: Codec, entries: seq<TensorEntry>) returns (out: seq<Byte>)
    ensures out == Written(c, entries)
  {
    var header: map<string, Meta>, offset, body: seq<Byte> := map[], 0, [];
    for i := 0 to |entries|
      invariant header == HeaderOf(entries[..i]) && body == Body(entries[..i]) && offset == |body|
    {
      var e := entries[i];
      assert entries[..i + 1][..i] == entries[..i] && entries[..i + 1][i] == e;
      header := header[e.name := Meta(e.dtype, e.shape, offset, offset + |e.data|)];
      body := body + e.data;
      offset := offset + |e.data|;
    }
    assert entries[..|entries|] == entries;
    var hb := c.encode(header);
    out := PutLE(|hb|, 8) + hb + body;
  }

  /** Reads a model file. */
  method LoadSafetensors(c: Codec, raw: seq<Byte>) returns (st: Option<Tensors>)
    ensures st == Load(c, raw)
  {
    hide Tensor, LoadMatrix, LoadWeights, LoadMapping;
    if |raw| < 8 {
      return None;
    }
    var hlen := GetLE(raw[..8]);
    if 8 + hlen > |raw| {
      return None;
    }
    var decoded := c.decode(raw[8..8 + hlen]);
    if decoded.None? {
      return None;
    }
    st := ReadMatrix(raw, decoded.value, 8 + hlen);
    if st.Some? {
      st := ReadWeights(raw, decoded.value, 8 + hlen, st.value);
    }
    if st.Some? {
      st := ReadMapping(raw, decoded.value, 8 + hlen, st.value);
    }
  }

  method ReadMatrix(raw: seq<Byte>, header: Header, base: nat) returns (st: Option<Tensors>)
    ensures st == LoadMatrix(raw, header, base)
  {
    hide Tensor;
    var f := Tensor(raw, header, base, "embeddings");
    if !f.Found? || |f.meta.shape| != 2 {
      return None;
    }
    var rows, dim := f.meta.shape[0], f.meta.shape[1];
    if f.meta.dtype == "F32" {
      if |f.bytes| != rows * dim * 4 {
        return None;
      }
      var matrix := DecodeAll(f.bytes, 4);
      return Some(Tensors(Some(matrix), None, [], rows, dim, None, None));
    }
    if f.meta.dtype != "I8" || |f.bytes| != rows * dim {
      return None;
    }
    var sf := Tensor(raw, header, base, "scales");
    if !IsVector(sf, "F32", rows, 4) {
      return None;
    }
    var scales := DecodeAll(sf.bytes, 4);
    return Some(Tensors(None, Some(FromBytes(f.bytes)), scales, rows, dim, None, None));
  }

  method ReadWeights(raw: seq<Byte>, header: Header, base: nat, st: Tensors) returns (r: Option<Tensors>)
    ensures r == LoadWeights(raw, header, base, st)
  {
    hide Tensor;
    var f := Tensor(raw, header, base, "weights");
    if f.Absent? {
      return Some(st);
    }
    if !IsVector(f, "F64", st.rows, 8) {
      return None;
    }
    var weights := DecodeAll(f.bytes, 8);
    return Some(st.(weights := Some(weights)));
  }

  /** Reads the mapping entry by entry, noting whether any row is mapped elsewhere. */
  method ReadMapping(raw: seq<Byte>, header: Header, base: nat, st: Tensors) returns (r: Option<Tensors>)
    ensures r == LoadMapping(raw, header, base, st)
  {
    hide Tensor;
    var f := Tensor(raw, header, base, "mapping");
    if f.Absent? {
      return Some(st);
    }
    if !IsVector(f, "I64", st.rows, 8) {
      return None;
    }
    var words := DecodeAll(f.bytes, 8);
    var m: seq<int>, identity := [], true;
    for i := 0 to |words|
      invariant |m| == i && m == FromWords(words[..i]) && InRange(m, st.rows) && identity == Identity(m)
    {
      var v := FromWord(words[i]);
      if v < 0 || v >= st.rows {
        assert FromWords(words)[i] == v;
        return None;
      }
      IdentitySnoc(m, v);
      m := m + [v];
      if v != i {
        identity := false;
      }
    }
    assert words[..|words|] == words;
    if identity {
      return Some(st);
    }
    return Some(st.(mapping := Some(m)));
  }

  lemma IdentitySnoc(m: seq<int>, v: int)
    ensures Identity(m + [v]) <==> Identity(m) && v == |m|
  {
    assert forall i | 0 <= i < |m| :: (m + [v])[i] == m[i];
    assert (m + [v])[|m|] == v;
  }

  // ---------------------------------------------------------------- from file to file

  /** What reading guarantees about the shapes. */
  lemma LoadedIsShaped(c: Codec, raw: seq<Byte>)
    requires Load(c, raw).Some? && Load(c, raw).value.matrix.Some?
    ensures var st := Load(c, raw).value; |st.matrix.value| == st.rows * st.dim
  {
    hide Tensor, GetLE;
    var base := 8 + GetLE(raw[..8]);
    var f := Tensor(raw, c.decode(raw[8..base]).value, base, "embeddings");
    GetAllShape(f.bytes, f.meta.shape[0] * f.meta.shape[1], 4);
  }

  /** A model read with a float matrix fits the form it is written in. */
  lemma LoadedFits(c: Codec, f: Floats, raw: seq<Byte>, q: seq<Int8>, exact: seq<real>)
    requires Load(c, raw).Some? && Load(c, raw).value.matrix.Some? && |raw| <= WORD / 2
    requires forall x :: f.round(x) < Power(4)
    requires |q| == Load(c, raw).value.rows * Load(c, raw).value.dim && |exact| == Load(c, raw).value.rows
    ensures Fits(Load(c, raw).value, q, Stored(f, exact)) &&
      Kept(Load(c, raw).value.mapping) == Load(c, raw).value.mapping
  {
    hide GetLE, Tensor;
    var base := 8 + GetLE(raw[..8]);
    var header := c.decode(raw[8..base]).value;
    var st := LoadMatrix(raw, header, base).value;
    var wf, mf := Tensor(raw, header, base, "weights"), Tensor(raw, header, base, "mapping");
    if wf.Found? {
      GetAllShape(wf.bytes, st.rows, 8);
    }
    if mf.Found? {
      GetAllShape(mf.bytes, st.rows, 8);
      FoundIsShorter(raw, header, base, "mapping");
    }
    assert Power(4) > 0;
  }

  lemma FoundIsShorter(raw: seq<Byte>, header: Header, base: nat, name: string)
    requires Tensor(raw, header, base, name).Found?
    ensures |Tensor(raw, header, base, name).bytes| <= |raw|
  {}

  /** `out` is a quantized form of the model file `raw`, and its header can be read back. */
  ghost predicate Rewritten(c: Codec, f: Floats, raw: seq<Byte>, out: seq<Byte>)
  {
    Load(c, raw).Some? && Load(c, raw).value.matrix.Some? && QuantizedFile(c, f, Load(c, raw).value, out) &&
    Faithful(c, StoredHeader(Load(c, raw).value)) && |out| < Power(8)
  }

  /** Quantizing a file and loading the result gives the quantized matrix of the original, its stored scales, and the
      original's weights and mapping, whenever the header that is written can be read back. */
  lemma QuantizeThenLoad(c: Codec, f: Floats, raw: seq<Byte>, out: seq<Byte>)
    requires Rewritten(c, f, raw, out) && |raw| <= WORD / 2 && forall x :: f.round(x) < Power(4)
    ensures var st := Load(c, raw).value;
      exists q, scales :: Quantization(f, st.matrix.value, st.rows, st.dim, q, scales) &&
        Load(c, out) == Some(Tensors(None, Some(q), scales, st.rows, st.dim, st.weights, st.mapping))
  {
    var st := Load(c, raw).value;
    LoadedIsShaped(c, raw);
    hide Load, Written, Entries, Faithful, Fits, Stored, StoredHeader, Power;
    var q, scales :| Quantization(f, st.matrix.value, st.rows, st.dim, q, scales) &&
      out == Written(c, Entries(st, q, scales));
    var exact :| |exact| == st.rows && MatrixQuantized(f, st.matrix.value, st.dim, q, exact) &&
      scales == Stored(f, exact);
    LoadedFits(c, f, raw, q, exact);
    StoredLength(f, exact);
    ShapeDecidesHeader(st, q, scales);
    QuantizedFileRoundTrips(c, st, q, scales);
  }

  // ---------------------------------------------------------------- how near the loaded entries are

  /** The scale of a row: its largest entry is step 127. */
  ghost predicate RowScale(row: seq<real>, scale: real)
  {
    scale >= 0.0 && (forall j | 0 <= j < |row| :: Abs(row[j]) <= 127.0 * scale) &&
    (row != [] ==> exists j :: 0 <= j < |row| && Abs(row[j]) == 127.0 * scale)
  }

  /** Between `low` and `high` storing a number changes it by at most the part `eps` of it, and the zero pattern is
      zero. */
  ghost predicate RoundsWithin(f: Floats, eps: real, low: real, high: real)
  {
    f.value(0) == 0.0 && forall x | low <= x <= high :: Abs(f.value(f.round(x)) - x) <= eps * x
  }

  /** The error of an entry is half a scale, and what storing the scale adds over 127 steps. */
  ghost predicate EntryWithin(f: Floats, v: Bits, stored: Bits, n: int, scale: real)
  {
    Abs(f.value(v) - f.value(stored) * (n as real)) <= scale / 2.0 + 127.0 * Abs(f.value(stored) - scale)
  }

  ghost predicate EntryAt(f: Floats, m: seq<Bits>, q: seq<Int8>, dim: nat, r: nat, j: nat, stored: Bits, scale: real)
  {
    0 <= r * dim + j < |m| && r * dim + j < |q| && EntryWithin(f, m[r * dim + j], stored, q[r * dim + j], scale)
  }

  /** Every entry of the loaded model, its step times its stored scale, is near the entry of the original. */
  ghost predicate LoadedNear(f: Floats, st: Tensors, loaded: Tensors, exact: seq<real>, eps: real, low: real,
    high: real)
    requires st.matrix.Some? && loaded.quant.Some?
  {
    var m, q := st.matrix.value, loaded.quant.value;
    |m| == |q| == st.rows * st.dim && |loaded.scales| == |exact| == st.rows &&
    (forall r | 0 <= r < st.rows :: RowScale(Values(f, Row(m, r, st.dim)), exact[r])) &&
    (forall r, j | 0 <= r < st.rows && 0 <= j < st.dim :: EntryAt(f, m, q, st.dim, r, j, loaded.scales[r], exact[r])) &&
    forall r | 0 <= r < st.rows && (exact[r] == 0.0 || low <= exact[r] <= high) ::
      Abs(f.value(loaded.scales[r]) - exact[r]) <= eps * exact[r]
  }

  lemma TimesIsBounded(d: real, k: real)
    requires -127.0 <= k <= 127.0
    ensures Abs(d * k) <= 127.0 * Abs(d)
  {
    if d >= 0.0 {
      TimesIsMonotone(k, 127.0, d);
      TimesIsMonotone(-127.0, k, d);
    } else {
      TimesIsMonotone(k, 127.0, -d);
      TimesIsMonotone(-127.0, k, -d);
      assert k * -d == -(d * k);
    }
  }

  lemma Distributes(x: real, y: real, k: real)
    ensures (x - y) * k == x * k - y * k
  {}

  /** Over at most 127 steps an error of the scale grows at most 127-fold. */
  lemma StepsAreBounded(scale: real, stored: real, n: int)
    requires -127 <= n <= 127
    ensures Abs(scale * (n as real) - stored * (n as real)) <= 127.0 * Abs(stored - scale)
  {
    TimesIsBounded(scale - stored, n as real);
    Distributes(scale, stored, n as real);
  }

  lemma ErrorsAdd(v: real, step: real, stored: real, x: real, y: real)
    requires Abs(v - step) <= x && Abs(step - stored) <= y
    ensures Abs(v - stored) <= x + y
  {}

  /** One entry: the rounding to a step, and the storing of the scale. */
  lemma EntryIsWithin(f: Floats, v: Bits, stored: Bits, n: int, scale: real)
    requires Near(f.value(v), scale, n)
    ensures EntryWithin(f, v, stored, n, scale)
  {
    StepsAreBounded(scale, f.value(stored), n);
    ErrorsAdd(f.value(v), scale * (n as real), f.value(stored) * (n as real), scale / 2.0,
      127.0 * Abs(f.value(stored) - scale));
  }

  lemma RowIsScaled(row: seq<real>, scale: real, q: seq<Int8>)
    requires RowQuantized(row, scale, q)
    ensures RowScale(row, scale)
  {}

  lemma StoredIsWithin(f: Floats, scale: real, eps: real, low: real, high: real)
    requires RoundsWithin(f, eps, low, high) && 0.0 < low && (scale == 0.0 || low <= scale <= high)
    ensures Abs(f.value(StoredScale(f, scale)) - scale) <= eps * scale
  {}

  /** Quantizing a file and loading the result: every entry is near the original one, by its row's scale alone. */
  lemma LoadedIsNear(c: Codec, f: Floats, raw: seq<Byte>, out: seq<Byte>, eps: real, low: real, high: real)
    requires Rewritten(c, f, raw, out) && |raw| <= WORD / 2 && forall x :: f.round(x) < Power(4)
    requires RoundsWithin(f, eps, low, high) && 0.0 < low
    ensures Load(c, out).Some? && Load(c, out).value.quant.Some?
    ensures exists exact :: LoadedNear(f, Load(c, raw).value, Load(c, out).value, exact, eps, low, high)
  {
    QuantizeThenLoad(c, f, raw, out);
    LoadedIsShaped(c, raw);
    var st := Load(c, raw).value;
    hide Load, Rewritten, Quantization, RoundsWithin, Power;
    var q, scales :| Quantization(f, st.matrix.value, st.rows, st.dim, q, scales) &&
      Load(c, out) == Some(Tensors(None, Some(q), scales, st.rows, st.dim, st.weights, st.mapping));
    QuantizationIsNear(f, st, Load(c, out).value, eps, low, high);
  }

  lemma QuantizationIsNear(f: Floats, st: Tensors, loaded: Tensors, eps: real, low: real, high: real)
    requires st.matrix.Some? && |st.matrix.value| == st.rows * st.dim && loaded.quant.Some?
    requires Quantization(f, st.matrix.value, st.rows, st.dim, loaded.quant.value, loaded.scales)
    requires RoundsWithin(f, eps, low, high) && 0.0 < low
    ensures exists exact :: LoadedNear(f, st, loaded, exact, eps, low, high)
  {
    hide RowQuantized, Near, RowScale, EntryWithin, RoundsWithin, Row, StoredScale;
    var m, q := st.matrix.value, loaded.quant.value;
    var exact :| |exact| == st.rows && MatrixQuantized(f, m, st.dim, q, exact) && loaded.scales == Stored(f, exact);
    StoredLength(f, exact);
    forall r | 0 <= r < st.rows ensures RowScale(Values(f, Row(m, r, st.dim)), exact[r]) {
      RowIsScaled(Values(f, Row(m, r, st.dim)), exact[r], Row(q, r, st.dim));
    }
    forall r, j | 0 <= r < st.rows && 0 <= j < st.dim
      ensures EntryAt(f, m, q, st.dim, r, j, loaded.scales[r], exact[r])
    {
      NearAt(f, m, st.dim, q, exact, r, j);
      EntryIsWithin(f, m[r * st.dim + j], loaded.scales[r], q[r * st.dim + j], exact[r]);
    }
    hide MatrixQuantized, EntryAt;
    forall r | 0 <= r < st.rows && (exact[r] == 0.0 || low <= exact[r] <= high)
      ensures Abs(f.value(loaded.scales[r]) - exact[r]) <= eps * exact[r]
    {
      StoredIsWithin(f, exact[r], eps, low, high);
    }
    assert LoadedNear(f, st, loaded, exact, eps, low, high);
  }

  /** A bound by the scale alone: half of it for the step, and 127 times the part that storing changes. */
  lemma WithinByScale(f: Floats, v: Bits, stored: Bits, n: int, scale: real, eps: real)
    requires EntryWithin(f, v, stored, n, scale) && Abs(f.value(stored) - scale) <= eps * scale
    ensures Abs(f.value(v) - f.value(stored) * (n as real)) <= (0.5 + 127.0 * eps) * scale
  {
    assert (0.5 + 127.0 * eps) * scale == scale / 2.0 + 127.0 * (eps * scale);
  }

  lemma StoredLength(f: Floats, exact: seq<real>)
    ensures |Stored(f, exact)| == |exact|
  {}

  // ---------------------------------------------------------------- a model of one zero

  const ONE_META := Meta("F32", [1, 1], 0, 4)

  /** A file with the header text `[1]` and a matrix of a single zero. */
  function OneZero(): seq<Byte>
  {
    PutLE(1, 8) + [1] + [0, 0, 0, 0]
  }

  /** A header text of its own for the float file; every other header is the one the quantized file has. */
  function OneCodec(): Codec
  {
    Codec(_ => [], text => if text == [1] then Some(map["embeddings" := Some(ONE_META)])
                           else Some(Lifted(StoredHeader(OneTensors()))))
  }

  function OneTensors(): Tensors
  {
    Tensors(Some([0]), None, [], 1, 1, None, None)
  }

  function ZeroFloats(): Floats
  {
    Floats(_ => 0.0, _ => 0)
  }

  lemma EightBytesHold(n: nat)
    requires n < 256
    ensures n < Power(8)
  {
    assert Power(8) == 256 * Power(7) && Power(7) >= 1;
  }

  lemma OneZeroLoads()
    ensures Load(OneCodec(), OneZero()) == Some(OneTensors())
  {
    hide StoredHeader, Power, PutLE, Lifted;
    EightBytesHold(1);
    PutThenGet(1, 8);
    var raw := OneZero();
    assert raw[..8] == PutLE(1, 8) && raw[8..9] == [1] && raw[9..13] == [0, 0, 0, 0];
    FourZeros();
    hide GetLE, GetAll;
    assert LoadMatrix(raw, map["embeddings" := Some(ONE_META)], 9) == Some(OneTensors());
  }

  lemma FourZeros()
    ensures GetAll([0, 0, 0, 0], 4) == [0]
  {}

  lemma OneZeroIsQuantized()
    ensures Quantization(ZeroFloats(), [0], 1, 1, [0], [0])
  {
    var f := ZeroFloats();
    assert Row([0], 0, 1) == [0];
    assert Row([0 as Int8], 0, 1) == [0];
    assert Values(f, [0]) == [0.0];
    assert Near(0.0, 0.0, 0) && Abs([0.0][0]) == 127.0 * 0.0;
    assert MatrixQuantized(f, [0], 1, [0], [0.0]);
    assert Stored(f, [0.0]) == [0];
  }

  function OneQuantized(): seq<Byte>
  {
    Written(OneCodec(), Entries(OneTensors(), [0], [0]))
  }

  /** This codec, arithmetic and file meet all that `QuantizeThenLoad` asks. */
  lemma QuantizeThenLoadApplies()
    ensures Rewritten(OneCodec(), ZeroFloats(), OneZero(), OneQuantized())
    ensures |OneZero()| <= WORD / 2 && forall x :: ZeroFloats().round(x) < Power(4)
  {
    hide *;
    OneZeroLoads();
    OneHeaderIsRead();
    OneFileIsShort();
    OneIsQuantized();
    ZerosAreSmall();
    OneIsRewritten(OneCodec(), ZeroFloats(), OneZero(), OneQuantized(), OneTensors());
  }

  lemma OneIsRewritten(c: Codec, f: Floats, raw: seq<Byte>, out: seq<Byte>, st: Tensors)
    requires Load(c, raw) == Some(st) && st.matrix.Some? && QuantizedFile(c, f, st, out)
    requires Faithful(c, StoredHeader(st)) && |out| < Power(8)
    ensures Rewritten(c, f, raw, out)
  {
    hide Load, QuantizedFile, Faithful, StoredHeader, Power;
  }

  lemma ZerosAreSmall()
    ensures OneTensors().matrix.Some? && |OneZero()| <= WORD / 2 && forall x :: ZeroFloats().round(x) < Power(4)
  {
    hide PutLE;
    assert Power(4) > 0;
  }

  lemma OneHeaderIsRead()
    ensures Faithful(OneCodec(), StoredHeader(OneTensors()))
  {
    hide StoredHeader, OneTensors;
  }

  lemma OneIsQuantized()
    ensures QuantizedFile(OneCodec(), ZeroFloats(), OneTensors(), OneQuantized())
  {
    OneZeroIsQuantized();
    hide OneCodec, ZeroFloats, Quantization, Written, Entries;
  }

  lemma OneFileIsShort()
    ensures |OneQuantized()| < Power(8)
  {
    hide HeaderOf, PutAll, Power;
    EightBytesHold(13);
    var entries := Entries(OneTensors(), [0], [0]);
    PutAllLength([0], 4);
    assert entries[..1] == [entries[0]];
    assert Body(entries[..1]) == Body([]) + entries[0].data;
    assert |Body(entries)| == 5;
  }
}
