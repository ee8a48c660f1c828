/**
 Columns under construction: concatenated bytes with 32-bit end offsets and validity, grown one
 document at a time.
 */
module Columns {
  import opened Wrappers
  import opened LittleEndian
  import M = Meta

  const I32: nat := 0x8000_0000

  /** `ends` carries a leading 0; a column without `valid` has no nulls. */
  datatype Col = Col(data: Bytes, ends: seq<nat>, valid: Option<seq<bool>>)

  function NewCol(nullable: bool): Col {
    Col([], [0], if nullable then Some([]) else None)
  }

  /** Offsets start at 0, never go down and finish at the data's end, within 32-bit reach. */
  predicate ColOk(c: Col) {
    && |c.ends| > 0 && c.ends[0] == 0 && c.ends[|c.ends| - 1] == |c.data| < I32
    && (forall k :: 0 < k < |c.ends| ==> c.ends[k - 1] <= c.ends[k])
    && (c.valid.Some? ==> |c.valid.value| == |c.ends| - 1)
  }

  lemma {:induction false} EndsBelow(ends: seq<nat>, j: nat, k: nat)
    requires j <= k < |ends| && forall i :: 0 < i < |ends| ==> ends[i - 1] <= ends[i]
    ensures ends[j] <= ends[k]
  {
    if j < k {
      EndsBelow(ends, j, k - 1);
      assert ends[k - 1] <= ends[k];
    }
  }

  /** The cells a reader of the column sees. */
  function Cells(c: Col): (cells: seq<Option<Bytes>>)
    requires ColOk(c)
    ensures |cells| == |c.ends| - 1
  {
    seq(|c.ends| - 1, r requires 0 <= r < |c.ends| - 1 => Cell(c, r))
  }

  function Cell(c: Col, r: nat): Option<Bytes>
    requires ColOk(c) && r + 1 < |c.ends|
  {
    EndsBelow(c.ends, r + 1, |c.ends| - 1);
    if c.valid.Some? && !c.valid.value[r] then None else Some(c.data[c.ends[r]..c.ends[r + 1]])
  }

  // ---- one document's column ----

  /** A document's matched rows: their bytes and, per row, where it ends. */
  datatype Chunk = Chunk(data: Bytes, ends: seq<nat>)

  predicate ChunkOk(c: Chunk, rows: nat) {
    && |c.ends| == rows && (if rows == 0 then c.data == [] else c.ends[rows - 1] == |c.data|)
    && forall k :: 0 < k < |c.ends| ==> c.ends[k - 1] <= c.ends[k]
  }

  function ChunkCell(c: Chunk, valid: Option<seq<bool>>, r: nat): Option<Bytes>
    requires ChunkOk(c, |c.ends|) && r < |c.ends| && (valid.Some? ==> |valid.value| == |c.ends|)
  {
    EndsBelow(c.ends, r, |c.ends| - 1);
    var from := if r == 0 then 0 else c.ends[r - 1];
    if valid.Some? && !valid.value[r] then None else Some(c.data[from..c.ends[r]])
  }

  function ChunkCells(c: Chunk, valid: Option<seq<bool>>): (cells: seq<Option<Bytes>>)
    requires ChunkOk(c, |c.ends|) && (valid.Some? ==> |valid.value| == |c.ends|)
    ensures |cells| == |c.ends|
  {
    seq(|c.ends|, r requires 0 <= r < |c.ends| => ChunkCell(c, valid, r))
  }

  /** A column with a chunk's rows rebased behind its own. */
  function Rebased(b: Col, c: Chunk, valid: Option<seq<bool>>): Col {
    Col(b.data + c.data, b.ends + seq(|c.ends|, r requires 0 <= r < |c.ends| => |b.data| + c.ends[r]),
        if b.valid.Some? && valid.Some? then Some(b.valid.value + valid.value) else b.valid)
  }

  lemma RebasedOk(b: Col, c: Chunk, valid: Option<seq<bool>>)
    requires ColOk(b) && ChunkOk(c, |c.ends|) && |b.data| + |c.data| < I32
    requires b.valid.Some? == valid.Some? && (valid.Some? ==> |valid.value| == |c.ends|)
    ensures ColOk(Rebased(b, c, valid))
  {
    var d, n := Rebased(b, c, valid), |b.ends|;
    forall k | 0 < k < |d.ends| ensures d.ends[k - 1] <= d.ends[k] {
      if k > n { assert c.ends[k - n - 1] <= c.ends[k - n]; }
    }
  }

  /** Appending a chunk appends its cells and changes none before. */
  lemma RebasedCells(b: Col, c: Chunk, valid: Option<seq<bool>>)
    requires ColOk(b) && ChunkOk(c, |c.ends|) && |b.data| + |c.data| < I32
    requires b.valid.Some? == valid.Some? && (valid.Some? ==> |valid.value| == |c.ends|)
    ensures ColOk(Rebased(b, c, valid)) && Cells(Rebased(b, c, valid)) == Cells(b) + ChunkCells(c, valid)
  {
    RebasedOk(b, c, valid);
    var d, n := Rebased(b, c, valid), |b.ends| - 1;
    forall r | 0 <= r < |d.ends| - 1 ensures Cell(d, r) == (Cells(b) + ChunkCells(c, valid))[r] {
      if r < n { OldCell(b, c, valid, r); } else { NewCell(b, c, valid, r - n); }
    }
  }

  lemma OldCell(b: Col, c: Chunk, valid: Option<seq<bool>>, r: nat)
    requires ColOk(b) && ColOk(Rebased(b, c, valid)) && r + 1 < |b.ends|
    requires b.valid.Some? == valid.Some? && (valid.Some? ==> |valid.value| == |c.ends|)
    ensures Cell(Rebased(b, c, valid), r) == Cell(b, r)
  {
    var d := Rebased(b, c, valid);
    EndsBelow(b.ends, r + 1, |b.ends| - 1);
    assert d.ends[r] == b.ends[r] && d.ends[r + 1] == b.ends[r + 1];
    assert d.data[b.ends[r]..b.ends[r + 1]] == b.data[b.ends[r]..b.ends[r + 1]];
  }

  lemma NewCell(b: Col, c: Chunk, valid: Option<seq<bool>>, i: nat)
    requires ColOk(b) && ChunkOk(c, |c.ends|) && ColOk(Rebased(b, c, valid)) && i < |c.ends|
    requires b.valid.Some? == valid.Some? && (valid.Some? ==> |valid.value| == |c.ends|)
    ensures Cell(Rebased(b, c, valid), |b.ends| - 1 + i) == ChunkCell(c, valid, i)
  {
    var d, r := Rebased(b, c, valid), |b.ends| - 1 + i;
    EndsBelow(c.ends, i, |c.ends| - 1);
    var from := if i == 0 then 0 else c.ends[i - 1];
    assert d.ends[r] == |b.data| + from && d.ends[r + 1] == |b.data| + c.ends[i];
    assert d.data[|b.data| + from..|b.data| + c.ends[i]] == c.data[from..c.ends[i]];
  }

  /** Fails exactly when the column's data would pass the 32-bit offset ceiling. */
  method AppendCol(b: Col, c: Chunk, valid: Option<seq<bool>>) returns (r: Option<Col>)
    requires ColOk(b) && ChunkOk(c, |c.ends|) && b.valid.Some? == valid.Some?
             && (valid.Some? ==> |valid.value| == |c.ends|)
    ensures r.None? <==> |b.data| + |c.data| >= I32
    ensures r.Some? ==> ColOk(r.value) && Cells(r.value) == Cells(b) + ChunkCells(c, valid)
    ensures r.Some? ==> |r.value.data| == |b.data| + |c.data| && r.value.valid.Some? == b.valid.Some?
  {
    var base := |b.data|;
    var data := b.data + c.data;
    var last := base + if c.ends == [] then 0 else c.ends[|c.ends| - 1];
    if last >= I32 {
      return None;
    }
    var ends := b.ends;
    for k := 0 to |c.ends|
      invariant ends == Rebased(b, Chunk(c.data, c.ends[..k]), None).ends
    {
      ends := ends + [base + c.ends[k]];
      assert ends == Rebased(b, Chunk(c.data, c.ends[..k + 1]), None).ends;
    }
    assert c.ends[..|c.ends|] == c.ends;
    RebasedCells(b, c, valid);
    return Some(Col(data, ends, if b.valid.Some? then Some(b.valid.value + valid.value) else None));
  }

  // ---- the key, repeated ----

  function Rep<X>(x: X, n: nat): (r: seq<X>)
    ensures |r| == n && forall k :: 0 <= k < n ==> r[k] == x
  {
    seq(n, _ => x)
  }

  /** `key` written `n` times. */
  function Repeat(key: Bytes, n: nat): Bytes {
    if n == 0 then [] else key + Repeat(key, n - 1)
  }

  function Times(a: nat, n: nat): nat {
    if n == 0 then 0 else a + Times(a, n - 1)
  }

  lemma {:induction false} RepeatLength(key: Bytes, n: nat)
    ensures |Repeat(key, n)| == Times(|key|, n)
  {
    if n > 0 { RepeatLength(key, n - 1); }
  }

  lemma {:induction false} RepeatAdd(key: Bytes, a: nat, b: nat)
    ensures Repeat(key, a + b) == Repeat(key, a) + Repeat(key, b)
  {
    if a > 0 {
      RepeatAdd(key, a - 1, b);
      Rejoin(key, Repeat(key, a - 1), Repeat(key, b));
    }
  }

  lemma Rejoin(a: Bytes, b: Bytes, c: Bytes)
    ensures a + (b + c) == (a + b) + c
  {
  }

  lemma {:induction false} TimesAdd(x: nat, a: nat, b: nat)
    ensures Times(x, a + b) == Times(x, a) + Times(x, b)
  {
    if a > 0 { TimesAdd(x, a - 1, b); }
  }

  lemma RepeatPrefix(key: Bytes, a: nat, b: nat)
    requires a <= b
    ensures Repeat(key, a) <= Repeat(key, b) && Times(|key|, a) <= Times(|key|, b)
  {
    RepeatAdd(key, a, b - a);
    TimesAdd(|key|, a, b - a);
  }

  /** The chunk that says `key` on each of `rows` rows. */
  function KeyChunk(key: Bytes, rows: nat): Chunk {
    Chunk(Repeat(key, rows), seq(rows, i requires 0 <= i < rows => Times(|key|, i + 1)))
  }

  lemma KeyChunkOk(key: Bytes, rows: nat)
    ensures ChunkOk(KeyChunk(key, rows), rows) && ChunkCells(KeyChunk(key, rows), None) == Rep(Some(key), rows)
  {
    var c := KeyChunk(key, rows);
    RepeatLength(key, rows);
    forall k | 0 < k < rows ensures c.ends[k - 1] <= c.ends[k] { TimesAdd(|key|, k, 1); }
    forall r | 0 <= r < rows ensures ChunkCell(c, None, r) == Some(key) {
      KeyAt(key, r, rows);
    }
  }

  /** Copy number `r` of the key, found by its offsets. */
  lemma KeyAt(key: Bytes, r: nat, rows: nat)
    requires r < rows
    ensures Times(|key|, r) <= Times(|key|, r + 1) <= |Repeat(key, rows)|
    ensures Repeat(key, rows)[Times(|key|, r)..Times(|key|, r + 1)] == key
  {
    var before, after := Repeat(key, r), Repeat(key, rows - r - 1);
    RepeatLength(key, r);
    RepeatAdd(key, r, rows - r);
    TimesAdd(|key|, r, 1);
    assert Repeat(key, rows - r) == key + after;
    assert Repeat(key, rows) == before + (key + after);
    assert Times(|key|, 1) == |key|;
    assert (before + (key + after))[|before|..|before| + |key|] == key;
  }

  /** Copies the key behind `data` and doubles what has been copied until all rows are there. */
  method CopyByDoubling(data: Bytes, key: Bytes, rows: nat) returns (r: Bytes)
    ensures r == data + Repeat(key, rows)
  {
    var base := |data|;
    var target := base + Times(|key|, rows);
    RepeatLength(key, rows);
    var first := if |key| < target - base then |key| else target - base;
    r := data + key[..first];
    if rows == 0 || key == [] {
      assert Repeat(key, rows) == [] by { RepeatLength(key, rows); TimesZero(rows); }
      assert r == data;
      return;
    }
    TimesAdd(|key|, 1, rows - 1);
    assert Times(|key|, 1) == |key| && key[..first] == key && Repeat(key, 1) == key + Repeat(key, 0) == key;
    ghost var m := 1;
    while |r| < target
      invariant 1 <= m <= rows && r == data + Repeat(key, m) && |r| <= target
      decreases rows - m
    {
      RepeatLength(key, m);
      RepeatPrefix(key, m, rows);
      var n := if target - |r| < |r| - base then target - |r| else |r| - base;
      ghost var more := if rows - m < m then rows - m else m;
      assert m < rows;
      DoublingStep(key, m, rows, n);
      CopiedAgain(data, key, m, more, n);
      r := r + r[base..base + n];
      m := m + more;
    }
    RepeatLength(key, m);
    TimesRise(|key|, m, rows);
  }

  lemma CopiedAgain(data: Bytes, key: Bytes, m: nat, more: nat, n: nat)
    requires n <= |Repeat(key, m)| && Repeat(key, m)[..n] == Repeat(key, more)
    requires Repeat(key, m) + Repeat(key, more) == Repeat(key, m + more)
    ensures var r := data + Repeat(key, m); r + r[|data|..|data| + n] == data + Repeat(key, m + more)
  {
    var r := data + Repeat(key, m);
    assert r[|data|..|data| + n] == Repeat(key, m)[..n];
    assert r + Repeat(key, more) == data + (Repeat(key, m) + Repeat(key, more));
  }

  lemma TimesRise(a: nat, m: nat, n: nat)
    requires 0 < a && m <= n
    ensures m < n <==> Times(a, m) < Times(a, n)
  {
    TimesAdd(a, m, n - m);
  }

  lemma {:induction false} TimesZero(n: nat)
    ensures Times(0, n) == 0
  {
    if n > 0 { TimesZero(n - 1); }
  }

  /** The part copied is a whole number of keys. */
  lemma DoublingStep(key: Bytes, m: nat, rows: nat, n: nat)
    requires 0 < m < rows && n == (if Times(|key|, rows) - Times(|key|, m) < Times(|key|, m)
             then Times(|key|, rows) - Times(|key|, m) else Times(|key|, m))
    ensures var more := if rows - m < m then rows - m else m;
            && n == Times(|key|, more) <= |Repeat(key, m)| && Repeat(key, m)[..n] == Repeat(key, more)
            && Repeat(key, m) + Repeat(key, more) == Repeat(key, m + more) && Times(|key|, m) + n <= Times(|key|, rows)
  {
    var more := if rows - m < m then rows - m else m;
    TimesAdd(|key|, m, rows - m);
    RepeatPrefix(key, more, m);
    RepeatLength(key, more);
    RepeatLength(key, m);
    RepeatAdd(key, m, more);
    if rows - m < m { RepeatPrefix(key, rows - m, m); } else { RepeatPrefix(key, m, rows - m); }
  }

  method AppendKey(b: Col, key: Bytes, rows: nat) returns (r: Option<Col>)
    requires ColOk(b) && b.valid == None
    ensures r.None? <==> |b.data| + Times(|key|, rows) >= I32
    ensures r.Some? ==> ColOk(r.value) && Cells(r.value) == Cells(b) + Rep(Some(key), rows)
    ensures r.Some? ==> |r.value.data| == |b.data| + Times(|key|, rows) && r.value.valid == None
  {
    if |b.data| + Times(|key|, rows) >= I32 {
      return None;
    }
    var data := CopyByDoubling(b.data, key, rows);
    var ends := b.ends + seq(rows, i requires 0 <= i < rows => |b.data| + Times(|key|, i + 1));
    RepeatLength(key, rows);
    KeyChunkOk(key, rows);
    RebasedCells(b, KeyChunk(key, rows), None);
    assert ends == Rebased(b, KeyChunk(key, rows), None).ends;
    return Some(Col(data, ends, None));
  }

  // ---- metadata ----

  datatype MetaCol =
    | StrCol(col: Col)
    | IntCol(ints: seq<int>, valid: seq<bool>)
    | FloatCol(floats: seq<M.Float>, valid: seq<bool>)
    | BoolCol(bools: seq<bool>, valid: seq<bool>)

  function NewMetaCol(t: M.MetaType): MetaCol {
    match t
    case StrType => StrCol(NewCol(true))
    case IntType => IntCol([], [])
    case FloatType => FloatCol([], [])
    case BoolType => BoolCol([], [])
  }

  predicate MetaOk(m: MetaCol) {
    match m
    case StrCol(col) => ColOk(col) && col.valid.Some?
    case IntCol(ints, valid) => |ints| == |valid|
    case FloatCol(floats, valid) => |floats| == |valid|
    case BoolCol(bools, valid) => |bools| == |valid|
  }

  function TypeOfMeta(m: MetaCol): M.MetaType {
    match m
    case StrCol(_) => M.StrType
    case IntCol(_, _) => M.IntType
    case FloatCol(_, _) => M.FloatType
    case BoolCol(_, _) => M.BoolType
  }

  function MetaCells(m: MetaCol): seq<Option<M.Value>>
    requires MetaOk(m)
  {
    match m
    case StrCol(col) =>
      var cells := Cells(col);
      seq(|cells|, r requires 0 <= r < |cells| => if cells[r].Some? then Some(M.StrVal(cells[r].value)) else None)
    case IntCol(ints, valid) =>
      seq(|ints|, r requires 0 <= r < |ints| => if valid[r] then Some(M.IntVal(ints[r])) else None)
    case FloatCol(floats, valid) =>
      seq(|floats|, r requires 0 <= r < |floats| => if valid[r] then Some(M.FloatVal(floats[r])) else None)
    case BoolCol(bools, valid) =>
      seq(|bools|, r requires 0 <= r < |bools| => if valid[r] then Some(M.BoolVal(bools[r])) else None)
  }

  /** A value of another type counts as null. */
  function Typed(t: M.MetaType, v: Option<M.Value>): Option<M.Value> {
    if v.Some? && M.TypeOf(v.value) == t then v else None
  }

  /** What a value adds to the data of a string column. */
  function StrLen(v: Option<M.Value>, rows: nat): nat {
    if v.Some? && v.value.StrVal? then Times(|v.value.s|, rows) else 0
  }

  /** One string value on each of `rows` rows; fails when the data passes the 32-bit ceiling. */
  method AppendStr(b: Col, v: Option<Bytes>, rows: nat) returns (r: Option<Col>)
    requires ColOk(b) && b.valid.Some?
    ensures r.None? <==> v.Some? && |b.data| + Times(|v.value|, rows) >= I32
    ensures r.Some? ==> ColOk(r.value) && r.value.valid.Some? && Cells(r.value) == Cells(b) + Rep(v, rows)
    ensures r.Some? ==> |r.value.data| == |b.data| + if v.Some? then Times(|v.value|, rows) else 0
  {
    if v.None? {
      var nulls := Chunk([], Rep(0, rows));
      RebasedCells(b, nulls, Some(Rep(false, rows)));
      assert ChunkCells(nulls, Some(Rep(false, rows))) == Rep(v, rows);
      return Some(Rebased(b, nulls, Some(Rep(false, rows))));
    }
    var data, ends := b.data, b.ends;
    assert Repeat(v.value, 0) == [] && KeyChunk(v.value, 0).ends == [];
    for k := 0 to rows
      invariant data == b.data + Repeat(v.value, k) && ends == Rebased(b, KeyChunk(v.value, k), None).ends
      invariant k > 0 ==> |data| < I32
    {
      RepeatAdd(v.value, k, 1);
      RepeatLength(v.value, k + 1);
      assert Repeat(v.value, 1) == v.value + Repeat(v.value, 0);
      data := data + v.value;
      if |data| >= I32 {
        RepeatPrefix(v.value, k + 1, rows);
        return None;
      }
      ends := ends + [|data|];
      assert ends == Rebased(b, KeyChunk(v.value, k + 1), None).ends;
    }
    RepeatLength(v.value, rows);
    KeyChunkOk(v.value, rows);
    var valid := Some(Rep(true, rows));
    RebasedCells(b, KeyChunk(v.value, rows), valid);
    assert ChunkCells(KeyChunk(v.value, rows), valid) == ChunkCells(KeyChunk(v.value, rows), None);
    return Some(Col(data, ends, Some(b.valid.value + Rep(true, rows))));
  }

  method AppendMeta(m: MetaCol, v: Option<M.Value>, rows: nat) returns (r: Option<MetaCol>)
    requires MetaOk(m)
    ensures r.None? <==> m.StrCol? && v.Some? && v.value.StrVal? && |m.col.data| + Times(|v.value.s|, rows) >= I32
    ensures r.Some? ==> MetaOk(r.value) && TypeOfMeta(r.value) == TypeOfMeta(m)
    ensures r.Some? ==> MetaCells(r.value) == MetaCells(m) + Rep(Typed(TypeOfMeta(m), v), rows)
    ensures r.Some? && m.StrCol? ==> |r.value.col.data| == |m.col.data| + StrLen(v, rows)
  {
    match m {
      case StrCol(col) =>
        var s := if v.Some? && v.value.StrVal? then Some(v.value.s) else None;
        var grown := AppendStr(col, s, rows);
        if grown.None? {
          return None;
        }
        r := Some(StrCol(grown.value));
        assert MetaCells(r.value) == MetaCells(m) + Rep(Typed(TypeOfMeta(m), v), rows);
      case IntCol(ints, valid) =>
        var present := v.Some? && v.value.IntVal?;
        r := Some(IntCol(ints + Rep(if present then v.value.i else 0, rows), valid + Rep(present, rows)));
        assert MetaCells(r.value) == MetaCells(m) + Rep(Typed(TypeOfMeta(m), v), rows);
      case FloatCol(floats, valid) =>
        var present := v.Some? && v.value.FloatVal?;
        r := Some(FloatCol(floats + Rep(if present then v.value.f else 0, rows), valid + Rep(present, rows)));
        assert MetaCells(r.value) == MetaCells(m) + Rep(Typed(TypeOfMeta(m), v), rows);
      case BoolCol(bools, valid) =>
        var present := v.Some? && v.value.BoolVal?;
        r := Some(BoolCol(bools + Rep(if present then v.value.b else false, rows), valid + Rep(present, rows)));
        assert MetaCells(r.value) == MetaCells(m) + Rep(Typed(TypeOfMeta(m), v), rows);
    }
  }
}
