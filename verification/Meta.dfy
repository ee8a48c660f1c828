/** Typed per-document metadata: rows pushed against a schema, stored column by column. */
module Meta {
  import opened Wrappers
  import opened LittleEndian

  const U32: nat := 0x1_0000_0000

  datatype MetaType = StrType | IntType | FloatType | BoolType

  function Code(t: MetaType): byte {
    match t case StrType => 0 case IntType => 1 case FloatType => 2 case BoolType => 3
  }

  function FromCode(code: byte): Option<MetaType> {
    match code
    case 0 => Some(StrType)
    case 1 => Some(IntType)
    case 2 => Some(FloatType)
    case 3 => Some(BoolType)
    case _ => None
  }

  /** A double-precision number as it is stored: its 64 bits. All bits zero is the number 0. */
  type Float = bits: nat | bits < 0x1_0000_0000_0000_0000

  datatype Value = StrVal(s: Bytes) | IntVal(i: int) | FloatVal(f: Float) | BoolVal(b: bool)

  function TypeOf(v: Value): MetaType {
    match v
    case StrVal(_) => StrType
    case IntVal(_) => IntType
    case FloatVal(_) => FloatType
    case BoolVal(_) => BoolType
  }

  /** One entry per schema field; `None` is null. */
  type Row = seq<Option<Value>>
  datatype Field = Field(name: string, ty: MetaType)
  type Schema = seq<Field>

  datatype Column =
    | StrColumn(ends: seq<nat>, bytes: Bytes, valid: seq<byte>)
    | IntColumn(ints: seq<int>, valid: seq<byte>)
    | FloatColumn(floats: seq<Float>, valid: seq<byte>)
    | BoolColumn(bools: seq<byte>, valid: seq<byte>)

  datatype Table = Table(names: seq<string>, types: seq<byte>, columns: seq<Column>)

  datatype Error = WrongArity | WrongType(field: nat) | ColumnTooLong(field: nat)
                 | RaggedTable | UnknownType | LengthMismatch | BadOffsets | WrongRowCount

  // ---- rows against the schema ----

  /** The first field, from number `i` on, whose value has the wrong type. */
  function BadField(schema: Schema, row: Row, i: nat): Option<nat>
    requires |row| == |schema| && i <= |row|
    decreases |row| - i
  {
    if i == |row| then None
    else if row[i].Some? && TypeOf(row[i].value) != schema[i].ty then Some(i)
    else BadField(schema, row, i + 1)
  }

  function ValidateRow(schema: Schema, row: Row): Option<Error> {
    if |row| != |schema| then Some(WrongArity)
    else match BadField(schema, row, 0) case Some(i) => Some(WrongType(i)) case None => None
  }

  predicate FieldFits(schema: Schema, row: Row, i: nat)
    requires i < |row| == |schema|
  {
    row[i].Some? ==> TypeOf(row[i].value) == schema[i].ty
  }

  lemma {:induction false} BadFieldIs(schema: Schema, row: Row, i: nat)
    requires |row| == |schema| && i <= |row|
    ensures match BadField(schema, row, i)
            case None => forall j :: i <= j < |row| ==> FieldFits(schema, row, j)
            case Some(k) => i <= k < |row| && !FieldFits(schema, row, k) && forall j :: i <= j < k ==>
                FieldFits(schema, row, j)
    decreases |row| - i
  {
    if i < |row| { BadFieldIs(schema, row, i + 1); }
  }

  /** A row is valid exactly when it has one cell per field and every value its field's type. */
  lemma ValidateRowIs(schema: Schema, row: Row)
    ensures ValidateRow(schema, row) == None <==> |row| == |schema| && forall i :: 0 <= i < |row| ==>
            FieldFits(schema, row, i)
  {
    if |row| == |schema| { BadFieldIs(schema, row, 0); }
  }

  // ---- columns ----

  function EmptyColumn(t: MetaType): Column {
    match t
    case StrType => StrColumn([], [], [])
    case IntType => IntColumn([], [])
    case FloatType => FloatColumn([], [])
    case BoolType => BoolColumn([], [])
  }

  function Rows(c: Column): nat { |c.valid| }

  /** A string column takes at most 4 GiB of text. */
  predicate Takes(c: Column, v: Option<Value>) {
    c.StrColumn? && v.Some? && v.value.StrVal? ==> |c.bytes| + |v.value.s| < U32
  }

  function Append(c: Column, v: Option<Value>): Column {
    match c
    case StrColumn(ends, bytes, valid) =>
      if v.Some? && v.value.StrVal? then StrColumn(ends + [|bytes| + |v.value.s|], bytes + v.value.s, valid + [1])
      else StrColumn(ends + [|bytes|], bytes, valid + [0])
    case IntColumn(ints, valid) =>
      if v.Some? && v.value.IntVal? then IntColumn(ints + [v.value.i], valid + [1])
          else IntColumn(ints + [0], valid + [0])
    case FloatColumn(floats, valid) =>
      if v.Some? && v.value.FloatVal? then FloatColumn(floats + [v.value.f], valid + [1])
          else FloatColumn(floats + [0], valid + [0])
    case BoolColumn(bools, valid) =>
      if v.Some? && v.value.BoolVal? then BoolColumn(bools + [if v.value.b then 1 else 0], valid + [1])
          else BoolColumn(bools + [0], valid + [0])
  }

  /** Reading one cell; anything but validity 1 is null. */
  function ArchivedValue(c: Column, row: nat): Option<Value>
    requires ColumnSound(c) && row < Rows(c)
  {
    if c.valid[row] != 1 then None
    else match c
      case StrColumn(ends, bytes, _) =>
        assert EndOk(ends, |bytes|, row);
        var start := if row == 0 then 0 else ends[row - 1];
        Some(StrVal(bytes[start..ends[row]]))
      case IntColumn(ints, _) => Some(IntVal(ints[row]))
      case FloatColumn(floats, _) => Some(FloatVal(floats[row]))
      case BoolColumn(bools, _) => Some(BoolVal(bools[row] != 0))
  }

  predicate EndOk(ends: seq<nat>, limit: nat, k: nat)
    requires k < |ends|
  {
    (if k == 0 then 0 else ends[k - 1]) <= ends[k] <= limit
  }

  /** Parallel lengths, and string offsets that only go up and stay inside the text. */
  predicate ColumnSound(c: Column) {
    match c
    case StrColumn(ends, bytes, valid) => |ends| == |valid| && forall k :: 0 <= k < |ends| ==> EndOk(ends, |bytes|, k)
    case IntColumn(ints, valid) => |ints| == |valid|
    case FloatColumn(floats, valid) => |floats| == |valid|
    case BoolColumn(bools, valid) => |bools| == |valid|
  }

  function TypeOfColumn(c: Column): MetaType {
    match c
    case StrColumn(_, _, _) => StrType
    case IntColumn(_, _) => IntType
    case FloatColumn(_, _) => FloatType
    case BoolColumn(_, _) => BoolType
  }

  /** The column holds exactly these cells, in order. */
  ghost predicate Holds(c: Column, cells: seq<Option<Value>>) {
    && ColumnSound(c) && Rows(c) == |cells|
    && (c.StrColumn? ==> (if c.ends == [] then 0 else c.ends[|c.ends| - 1]) == |c.bytes| < U32)
    && forall r :: 0 <= r < |cells| ==> ArchivedValue(c, r) == cells[r]
  }

  /** Appending a cell adds that cell, and only that cell. */
  lemma AppendHolds(c: Column, cells: seq<Option<Value>>, v: Option<Value>)
    requires Holds(c, cells) && Takes(c, v) && (v.Some? ==> TypeOf(v.value) == TypeOfColumn(c))
    ensures Holds(Append(c, v), cells + [v]) && TypeOfColumn(Append(c, v)) == TypeOfColumn(c)
  {
    var d, n := Append(c, v), |cells|;
    if c.StrColumn? {
      StrAppendSound(c, v);
      forall r | 0 <= r <= n ensures ArchivedValue(d, r) == (cells + [v])[r] {
        if r < n {
          assert EndOk(c.ends, |c.bytes|, r) && ArchivedValue(c, r) == cells[r];
          var start := if r == 0 then 0 else c.ends[r - 1];
          assert d.bytes[start..d.ends[r]] == c.bytes[start..c.ends[r]];
        } else if v.Some? {
          assert d.bytes[|c.bytes|..|c.bytes| + |v.value.s|] == v.value.s;
        }
      }
    } else {
      forall r | 0 <= r <= n ensures ArchivedValue(d, r) == (cells + [v])[r] {
        if r < n { assert ArchivedValue(c, r) == cells[r]; }
      }
    }
  }

  lemma StrAppendSound(c: Column, v: Option<Value>)
    requires c.StrColumn? && ColumnSound(c) && (if c.ends == [] then 0 else c.ends[|c.ends| - 1]) == |c.bytes|
    ensures ColumnSound(Append(c, v))
  {
    var d := Append(c, v);
    forall k | 0 <= k < |d.ends| ensures EndOk(d.ends, |d.bytes|, k) {
      if k < |c.ends| { assert EndOk(c.ends, |c.bytes|, k); }
    }
  }

  // ---- the builder ----

  /** Column `i` of a list of rows. */
  ghost function Cells(rows: seq<Row>, i: nat): (cells: seq<Option<Value>>)
    requires forall r :: 0 <= r < |rows| ==> i < |rows[r]|
    ensures |cells| == |rows|
  {
    seq(|rows|, r requires 0 <= r < |rows| => rows[r][i])
  }

  ghost predicate Rectangular(schema: Schema, columns: seq<Column>, rows: seq<Row>) {
    && |columns| == |schema| && (forall r :: 0 <= r < |rows| ==> |rows[r]| == |schema|)
    && forall i :: 0 <= i < |columns| ==> ColumnHolds(schema, columns, rows, i)
  }

  ghost predicate ColumnHolds(schema: Schema, columns: seq<Column>, rows: seq<Row>, i: nat)
    requires i < |columns| == |schema| && forall r :: 0 <= r < |rows| ==> |rows[r]| == |schema|
  {
    && TypeOfColumn(columns[i]) == schema[i].ty && Holds(columns[i], Cells(rows, i))
    && (columns[i].StrColumn? ==> |columns[i].bytes| == FieldText(rows, i))
  }

  /** How much text a row has in field `i`. */
  function CellText(row: Row, i: nat): nat {
    if i < |row| && row[i].Some? && row[i].value.StrVal? then |row[i].value.s| else 0
  }

  function FieldText(rows: seq<Row>, i: nat): nat {
    if rows == [] then 0 else FieldText(rows[..|rows| - 1], i) + CellText(rows[|rows| - 1], i)
  }

  // ---- which rows fit behind others ----

  /** The row has too few or too many cells, one of a wrong type, or a text its column has no room for. */
  predicate Refused(schema: Schema, rows: seq<Row>, row: Row) {
    |row| != |schema| || exists i :: 0 <= i < |row| && CellRefused(schema, rows, row, i)
  }

  predicate CellRefused(schema: Schema, rows: seq<Row>, row: Row, i: nat)
    requires i < |row| == |schema|
  {
    !FieldFits(schema, row, i) || (schema[i].ty.StrType? && FieldText(rows, i) + CellText(row, i) >= U32)
  }

  /** Row by row, each fits behind those before it. */
  ghost predicate AllFit(schema: Schema, rows: seq<Row>) {
    rows == [] || (AllFit(schema, rows[..|rows| - 1]) && !Refused(schema, rows[..|rows| - 1], rows[|rows| - 1]))
  }

  /** The row has one cell per field, and every value its field's type. */
  ghost predicate WellShaped(schema: Schema, row: Row) {
    |row| == |schema| && forall i :: 0 <= i < |row| ==> FieldFits(schema, row, i)
  }

  /** All rows fit exactly if each has the right shape and no string column gets too long in all. */
  lemma {:induction false} AllFitIs(schema: Schema, rows: seq<Row>)
    ensures AllFit(schema, rows) <==>
            && (forall r :: 0 <= r < |rows| ==> WellShaped(schema, rows[r]))
            && (forall i :: 0 <= i < |schema| && schema[i].ty.StrType? ==> FieldText(rows, i) < 0x1_0000_0000)
  {
    if rows != [] {
      var before, last := rows[..|rows| - 1], rows[|rows| - 1];
      AllFitIs(schema, before);
      LastFits(schema, before, last);
      assert rows == before + [last];
      assert forall i :: 0 <= i < |schema| ==> FieldText(rows, i) == FieldText(before, i) + CellText(last, i);
    }
  }

  lemma LastFits(schema: Schema, rows: seq<Row>, row: Row)
    ensures !Refused(schema, rows, row) <==>
            && WellShaped(schema, row)
            && (forall i :: 0 <= i < |schema| && schema[i].ty.StrType? ==>
               FieldText(rows, i) + CellText(row, i) < 0x1_0000_0000)
  {
    if |row| == |schema| {
      if !Refused(schema, rows, row) {
        forall i | 0 <= i < |schema|
            ensures FieldFits(schema, row, i)
            ensures schema[i].ty.StrType? ==> FieldText(rows, i) + CellText(row, i) < 0x1_0000_0000 {
          assert !CellRefused(schema, rows, row, i);
        }
      }
    }
  }

  lemma OneMoreFits(schema: Schema, rows: seq<Row>, row: Row)
    ensures AllFit(schema, rows + [row]) <==> AllFit(schema, rows) && !Refused(schema, rows, row)
  {
    assert (rows + [row])[..|rows|] == rows;
  }

  /** Rows that do not fit are not mended by more rows. */
  lemma {:induction false} FitPrefix(schema: Schema, rows: seq<Row>, all: seq<Row>)
    requires rows <= all && AllFit(schema, all)
    ensures AllFit(schema, rows)
  {
    if |rows| < |all| {
      FitPrefix(schema, rows, all[..|all| - 1]);
    } else {
      assert rows == all;
    }
  }

  function ColumnRows(columns: seq<Column>): nat {
    if columns == [] then 0 else Rows(columns[0])
  }

  class MetaTableBuilder {
    var schema: Schema
    var columns: seq<Column>
    ghost var rows: seq<Row>

    ghost predicate Valid()
      reads this
    {
      Rectangular(schema, columns, rows)
    }

    constructor (s: Schema)
      ensures Valid() && schema == s && rows == []
    {
      schema, columns, rows := s, seq(|s|, i requires 0 <= i < |s| => EmptyColumn(s[i].ty)), [];
    }

    /**
     Pushes one row column by column. It succeeds exactly when the row matches the schema and no
     string column overflows; a failure at column `k` leaves the `k` columns before it a row longer.
     */
    method PushRow(row: Row) returns (failure: Option<Error>, ghost k: nat)
      requires Valid()
      modifies this
      ensures schema == old(schema)
      ensures failure == None <==> |row| == |schema| && forall i :: 0 <= i < |row| ==>
              Accepts(schema, old(columns), row, i)
      ensures failure == None <==> !Refused(schema, old(rows), row)
      ensures failure == None ==> Valid() && rows == old(rows) + [row]
      ensures failure.Some? ==> rows == old(rows) && PushedUpTo(old(columns), columns, row, k)
      ensures failure.Some? ==> if |row| != |schema| then k == 0 else FirstRefused(schema, old(columns), row, k)
    {
      ghost var was := columns;
      RefusedIs(schema, was, rows, row);
      if |row| != |schema| {
        return Some(WrongArity), 0;
      }
      for i := 0 to |row|
        invariant PushedUpTo(was, columns, row, i) && rows == old(rows) && schema == old(schema)
        invariant forall j :: 0 <= j < i ==> Accepts(schema, was, row, j)
      {
        if row[i].Some? && TypeOf(row[i].value) != schema[i].ty {
          assert !Accepts(schema, was, row, i);
          return Some(WrongType(i)), i;
        }
        if !Takes(columns[i], row[i]) {
          assert !Accepts(schema, was, row, i);
          return Some(ColumnTooLong(i)), i;
        }
        columns := columns[i := Append(columns[i], row[i])];
      }
      RowPushed(schema, was, rows, row, columns);
      rows := rows + [row];
      return None, |row|;
    }

    function RowCount(): nat
      reads this
    {
      ColumnRows(columns)
    }

    function Finish(): Table
      reads this
    {
      TableOf(schema, columns)
    }
  }

  /** Field `i` of the row has the declared type, and its column has room for the text. */
  predicate Accepts(schema: Schema, columns: seq<Column>, row: Row, i: nat)
    requires i < |row| == |schema| == |columns|
  {
    FieldFits(schema, row, i) && Takes(columns[i], row[i])
  }

  /** A row is refused exactly if some column does not accept its cell. */
  lemma RefusedIs(schema: Schema, columns: seq<Column>, rows: seq<Row>, row: Row)
    requires Rectangular(schema, columns, rows)
    ensures !Refused(schema, rows, row) <==> |row| == |schema| && forall i :: 0 <= i < |row| ==>
            Accepts(schema, columns, row, i)
  {
    if |row| == |schema| {
      forall i | 0 <= i < |row| ensures Accepts(schema, columns, row, i) <==> !CellRefused(schema, rows, row, i) {
        assert ColumnHolds(schema, columns, rows, i);
      }
    }
  }

  /** Field `k` is the first whose column does not take its cell of the row. */
  predicate FirstRefused(schema: Schema, columns: seq<Column>, row: Row, k: nat) {
    && |row| == |schema| == |columns| && k < |row| && !Accepts(schema, columns, row, k)
    && forall j :: 0 <= j < k ==> Accepts(schema, columns, row, j)
  }

  /** The first `k` columns took their cell of the row; the others are untouched. */
  ghost predicate PushedUpTo(was: seq<Column>, now: seq<Column>, row: Row, k: nat) {
    && |now| == |was| && k <= |row| && k <= |was|
    && (forall i :: 0 <= i < k ==> now[i] == Append(was[i], row[i]))
    && (forall i :: k <= i < |was| ==> now[i] == was[i])
  }

  lemma RowPushed(schema: Schema, was: seq<Column>, rows: seq<Row>, row: Row, now: seq<Column>)
    requires Rectangular(schema, was, rows) && |row| == |schema| && PushedUpTo(was, now, row, |row|)
    requires forall j :: 0 <= j < |row| ==> Accepts(schema, was, row, j)
    ensures Rectangular(schema, now, rows + [row])
  {
    var all := rows + [row];
    assert forall r :: 0 <= r < |all| ==> |all[r]| == |schema|;
    forall i | 0 <= i < |now| ensures ColumnHolds(schema, now, all, i) {
      assert ColumnHolds(schema, was, rows, i) && Accepts(schema, was, row, i);
      AppendHolds(was[i], Cells(rows, i), row[i]);
      assert Cells(all, i) == Cells(rows, i) + [row[i]] && all[..|rows|] == rows;
    }
  }

  /** The row count is read off the first column, so a schema without fields always counts zero. */
  lemma RowCountIs(schema: Schema, columns: seq<Column>, rows: seq<Row>)
    requires Rectangular(schema, columns, rows)
    ensures ColumnRows(columns) == |rows| <==> schema != [] || rows == []
  {
    if columns != [] { assert ColumnHolds(schema, columns, rows, 0); }
  }

  /**
   A refused row leaves the table ragged exactly when the first field took its cell: the row count,
   read off the first column, has then gone up, but no document count fits the table any more.
   */
  lemma FailedRowLeavesRagged(schema: Schema, was: seq<Column>, rows: seq<Row>, row: Row, now: seq<Column>, k: nat)
    requires Rectangular(schema, was, rows) && FirstRefused(schema, was, row, k) && PushedUpTo(was, now, row, k)
    ensures (forall n :: !TableSound(TableOf(schema, now), n)) <==> Accepts(schema, was, row, 0)
    ensures ColumnRows(now) == |rows| + if Accepts(schema, was, row, 0) then 1 else 0
    ensures TableSound(TableOf(schema, now), |rows|) <==> !Accepts(schema, was, row, 0)
  {
    assert ColumnHolds(schema, was, rows, 0) && ColumnHolds(schema, was, rows, k);
    if k == 0 {
      assert now == was;
      FinishedTableReads(schema, was, rows);
    } else {
      assert now[0] == Append(was[0], row[0]) && now[k] == was[k];
      forall n ensures !TableSound(TableOf(schema, now), n) {
        assert Rows(now[0]) == |rows| + 1 && Rows(now[k]) == |rows|;
      }
    }
  }

  /** A number and a truth value against a schema of two numbers: refused, with one column a row longer. */
  lemma RaggedRow()
    ensures var schema, row := [Field("a", IntType), Field("b", IntType)], [Some(IntVal(7)), Some(BoolVal(true))];
            var was: seq<Column> := [EmptyColumn(IntType), EmptyColumn(IntType)];
            Rectangular(schema, was, []) && FirstRefused(schema, was, row, 1) && Accepts(schema, was, row, 0)
            && PushedUpTo(was, [IntColumn([7], [1]), EmptyColumn(IntType)], row, 1)
            && forall n :: !TableSound(TableOf(schema, [IntColumn([7], [1]), EmptyColumn(IntType)]), n)
  {
    var schema, row := [Field("a", IntType), Field("b", IntType)], [Some(IntVal(7)), Some(BoolVal(true))];
    var was: seq<Column> := [EmptyColumn(IntType), EmptyColumn(IntType)];
    forall i | 0 <= i < 2 ensures ColumnHolds(schema, was, [], i) {
      assert was[i] == EmptyColumn(IntType);
    }
    FailedRowLeavesRagged(schema, was, [], row, [IntColumn([7], [1]), EmptyColumn(IntType)], 1);
  }

  // ---- reading back ----

  function SchemaOf(t: Table): Option<Schema> {
    if |t.types| != |t.names| then None else SchemaFrom(t, 0)
  }

  function SchemaFrom(t: Table, i: nat): (s: Option<Schema>)
    requires |t.types| == |t.names| && i <= |t.names|
    ensures s.Some? ==> |s.value| == |t.names| - i
    decreases |t.names| - i
  {
    if i == |t.names| then Some([])
    else match (FromCode(t.types[i]), SchemaFrom(t, i + 1))
      case (Some(ty), Some(rest)) => Some([Field(t.names[i], ty)] + rest)
      case _ => None
  }

  function TableOf(schema: Schema, columns: seq<Column>): Table {
    Table(seq(|schema|, i requires 0 <= i < |schema| => schema[i].name),
          seq(|schema|, i requires 0 <= i < |schema| => Code(schema[i].ty)), columns)
  }

  lemma {:induction false} SchemaSurvives(schema: Schema, columns: seq<Column>, i: nat)
    requires i <= |schema|
    ensures SchemaFrom(TableOf(schema, columns), i) == Some(schema[i..])
    decreases |schema| - i
  {
    if i < |schema| {
      SchemaSurvives(schema, columns, i + 1);
      var t := TableOf(schema, columns);
      assert FromCode(t.types[i]) == Some(schema[i].ty) && t.names[i] == schema[i].name;
      assert schema[i..] == [Field(schema[i].name, schema[i].ty)] + schema[i + 1..];
    } else {
      assert schema[i..] == [];
    }
  }

  /** Rehydrating a finished table gives back the same builder, so appending continues row for row. */
  method FromTable(t: Table, ghost schema: Schema, ghost rows: seq<Row>) returns (b: MetaTableBuilder)
    requires t == TableOf(schema, t.columns) && Rectangular(schema, t.columns, rows)
    ensures fresh(b) && b.Valid() && b.schema == schema && b.columns == t.columns && b.rows == rows && b.Finish() == t
  {
    SchemaSurvives(schema, t.columns, 0);
    assert schema[0..] == schema;
    var s := SchemaOf(t);
    b := new MetaTableBuilder(s.value);
    b.columns := t.columns;
    b.rows := rows;
  }

  // ---- validation on open ----

  predicate TableSound(t: Table, docCount: nat) {
    && |t.types| == |t.names| == |t.columns|
    && (forall i :: 0 <= i < |t.types| ==> FromCode(t.types[i]).Some?)
    && (forall i :: 0 <= i < |t.columns| ==> ColumnSound(t.columns[i]) && Rows(t.columns[i]) == docCount)
  }

  /** The checks of `open`, in the order it makes them. */
  method ValidateArchived(t: Table, docCount: nat) returns (failure: Option<Error>)
    ensures failure == None <==> TableSound(t, docCount)
  {
    if |t.types| != |t.names| || |t.columns| != |t.names| {
      return Some(RaggedTable);
    }
    for i := 0 to |t.types|
      invariant forall j :: 0 <= j < i ==> FromCode(t.types[j]).Some?
    {
      if FromCode(t.types[i]).None? {
        return Some(UnknownType);
      }
    }
    for i := 0 to |t.columns|
      invariant forall j :: 0 <= j < i ==> ColumnSound(t.columns[j]) && Rows(t.columns[j]) == docCount
    {
      var sound := CheckColumn(t.columns[i]);
      if sound.Some? {
        return sound;
      }
      if Rows(t.columns[i]) != docCount {
        return Some(WrongRowCount);
      }
    }
    return None;
  }

  method CheckColumn(c: Column) returns (failure: Option<Error>)
    ensures failure == None <==> ColumnSound(c)
  {
    match c {
      case StrColumn(ends, bytes, valid) =>
        if |ends| != |valid| {
          return Some(LengthMismatch);
        }
        var prev := 0;
        for k := 0 to |ends|
          invariant forall j :: 0 <= j < k ==> EndOk(ends, |bytes|, j)
          invariant prev == if k == 0 then 0 else ends[k - 1]
        {
          if ends[k] < prev || ends[k] > |bytes| {
            assert !EndOk(ends, |bytes|, k);
            return Some(BadOffsets);
          }
          prev := ends[k];
        }
        return None;
      case IntColumn(ints, valid) =>
        return if |ints| != |valid| then Some(LengthMismatch) else None;
      case FloatColumn(floats, valid) =>
        return if |floats| != |valid| then Some(LengthMismatch) else None;
      case BoolColumn(bools, valid) =>
        return if |bools| != |valid| then Some(LengthMismatch) else None;
    }
  }

  /** A finished table passes the checks of `open`, and each cell reads back what was pushed. */
  lemma FinishedTableReads(schema: Schema, columns: seq<Column>, rows: seq<Row>)
    requires Rectangular(schema, columns, rows)
    ensures TableSound(TableOf(schema, columns), |rows|)
    ensures SchemaOf(TableOf(schema, columns)) == Some(schema)
    ensures forall r, i :: 0 <= r < |rows| && 0 <= i < |schema| ==>
            ColumnSound(columns[i]) && r < Rows(columns[i]) && ArchivedValue(columns[i], r) == rows[r][i]
  {
    var t := TableOf(schema, columns);
    SchemaSurvives(schema, columns, 0);
    forall i | 0 <= i < |schema| ensures FromCode(t.types[i]).Some? && ColumnSound(columns[i])
        && Rows(columns[i]) == |rows| {
      assert ColumnHolds(schema, columns, rows, i);
    }
    forall r, i | 0 <= r < |rows| && 0 <= i < |schema|
        ensures ColumnSound(columns[i]) && r < Rows(columns[i]) && ArchivedValue(columns[i], r) == rows[r][i] {
      assert ColumnHolds(schema, columns, rows, i);
      assert Cells(rows, i)[r] == rows[r][i];
    }
  }
}
