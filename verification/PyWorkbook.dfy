/** The Python workbook's own methods, one call at a time: the engine behind the lock and the
    compatibility cache beside it. How calls of several threads interleave is in `CacheProtocol`. */
module PyWorkbook {
  import opened Options
  import opened Literals
  import opened Cells

  datatype CallError = NotOneBased | EngineError

  /** The writes of one row of a batch. */
  function RowWrites(sheet: string, row: nat, col: nat, inputs: seq<Input>): seq<Write> {
    seq(|inputs|, i requires 0 <= i < |inputs| => Write((sheet, row, col + i), inputs[i]))
  }

  /** The writes of a batch, row by row. */
  function BatchWrites(sheet: string, row: nat, col: nat, rows: seq<seq<Input>>): seq<Write> {
    if rows == [] then []
    else
      BatchWrites(sheet, row, col, rows[..|rows| - 1])
      + RowWrites(sheet, row + |rows| - 1, col, rows[|rows| - 1])
  }

  lemma CacheAllPush(cache: Cache, writes: seq<Write>, last: Write)
    ensures CacheAll(cache, writes + [last]) == CacheAll(cache, writes)[last.cell := Cached(last.input)]
  {
    assert (writes + [last])[..|writes|] == writes;
  }

  lemma NoWrites(cache: Cache)
    ensures CacheAll(cache, []) == cache
  {
  }

  lemma RowWritesNone(sheet: string, row: nat, col: nat, inputs: seq<Input>, done: seq<Write>)
    ensures done + RowWrites(sheet, row, col, inputs[..0]) == done
  {
  }

  lemma BatchWritesPush(sheet: string, row: nat, col: nat, rows: seq<seq<Input>>, i: nat)
    requires i < |rows|
    ensures BatchWrites(sheet, row, col, rows[..i + 1])
         == BatchWrites(sheet, row, col, rows[..i]) + RowWrites(sheet, row + i, col, rows[i])
  {
    assert rows[..i + 1][..i] == rows[..i];
  }

  /** One more input of a row reaches the cache. */
  lemma RowStep(cache: Cache, done: seq<Write>, sheet: string, row: nat, col: nat, inputs: seq<Input>, n: nat)
    requires n < |inputs|
    ensures CacheAll(cache, done + RowWrites(sheet, row, col, inputs[..n + 1]))
         == CacheAll(cache, done + RowWrites(sheet, row, col, inputs[..n]))[(sheet, row, col + n) := Cached(inputs[n])]
  {
    var write := Write((sheet, row, col + n), inputs[n]);
    RowWritesPush(sheet, row, col, inputs, n);
    CacheAllPush(cache, done + RowWrites(sheet, row, col, inputs[..n]), write);
    assert done + RowWrites(sheet, row, col, inputs[..n + 1])
        == done + RowWrites(sheet, row, col, inputs[..n]) + [write];
  }

  lemma RowWritesPush(sheet: string, row: nat, col: nat, inputs: seq<Input>, n: nat)
    requires n < |inputs|
    ensures RowWrites(sheet, row, col, inputs[..n + 1])
         == RowWrites(sheet, row, col, inputs[..n]) + [Write((sheet, row, col + n), inputs[n])]
  {
  }

  lemma RowOneSheet(sheet: string, row: nat, col: nat, inputs: seq<Input>)
    ensures OneSheet(RowWrites(sheet, row, col, inputs), sheet)
  {
  }

  lemma {:induction false} BatchOneSheet(sheet: string, row: nat, col: nat, rows: seq<seq<Input>>)
    ensures OneSheet(BatchWrites(sheet, row, col, rows), sheet)
  {
    if rows != [] {
      BatchOneSheet(sheet, row, col, rows[..|rows| - 1]);
      RowOneSheet(sheet, row + |rows| - 1, col, rows[|rows| - 1]);
    }
  }

  /** `set_values_batch` takes values only and `set_formulas_batch` formulas only. */
  predicate UniformRows(rows: seq<seq<Input>>) {
    || (forall i, j :: 0 <= i < |rows| && 0 <= j < |rows[i]| ==> rows[i][j].ByValue?)
    || (forall i, j :: 0 <= i < |rows| && 0 <= j < |rows[i]| ==> rows[i][j].ByFormula?)
  }

  predicate AllOf(values: bool, writes: seq<Write>) {
    if values then AllValues(writes) else AllFormulas(writes)
  }

  lemma {:induction false} BatchAllOf(values: bool, sheet: string, row: nat, col: nat, rows: seq<seq<Input>>)
    requires forall i, j :: 0 <= i < |rows| && 0 <= j < |rows[i]| ==> rows[i][j].ByValue? == values
    ensures AllOf(values, BatchWrites(sheet, row, col, rows))
  {
    if rows != [] {
      BatchAllOf(values, sheet, row, col, rows[..|rows| - 1]);
    }
  }

  lemma BatchUniform(sheet: string, row: nat, col: nat, rows: seq<seq<Input>>)
    requires UniformRows(rows)
    ensures Uniform(BatchWrites(sheet, row, col, rows))
  {
    if forall i, j :: 0 <= i < |rows| && 0 <= j < |rows[i]| ==> rows[i][j].ByValue? {
      BatchAllOf(true, sheet, row, col, rows);
    } else {
      BatchAllOf(false, sheet, row, col, rows);
    }
    hide BatchWrites;
  }

  /** A batch that went through overtakes no cached value; one that failed spares them all. */
  ghost predicate BatchHarmless(
    cache: Cache, e: Engine, writes: seq<Write>, sheet: string, taken: nat, r: Result<(), CallError>)
    requires taken <= |writes|
  {
    if r.Ok? then forall place :: !Overtaken(cache, e, writes, sheet, place)
    else r.error.EngineError? ==> Spares(cache, e, writes[..taken], sheet)
  }

  class Workbook {
    var engine: Engine
    var sheets: Cache

    constructor (logged: bool, system: DateSystem, policy: Egress)
      ensures engine == NewEngine(logged, system, policy) && sheets == map[]
      ensures Coherent(sheets, engine)
    {
      engine, sheets := NewEngine(logged, system, policy), map[];
    }

    /** `set_value` and `set_formula`: the engine first, the cache only if the engine agreed. */
    method SetCell(sheet: string, row: nat, col: nat, input: Input, engineAccepts: bool)
      returns (r: Result<(), CallError>)
      modifies this
      ensures r == if row == 0 || col == 0 then Err(NotOneBased)
                   else if !engineAccepts then Err(EngineError) else Ok(())
      ensures r.Err? ==> engine == old(engine) && sheets == old(sheets)
      ensures var writes := [Write((sheet, row, col), input)];
              r.Ok? ==>
                && engine == PutAll(old(engine), writes)
                && sheets == CacheAll(old(sheets), writes)
                && (Coherent(sheets, engine)
                    <==> forall place :: !Overtaken(old(sheets), old(engine), writes, sheet, place))
    {
      if row == 0 || col == 0 {
        return Err(NotOneBased);
      }
      if !engineAccepts {
        return Err(EngineError);
      }
      ghost var writes := [Write((sheet, row, col), input)];
      assert writes[..0] == [];
      assert PutAll(engine, writes[..0]) == engine && CacheAll(sheets, writes[..0]) == sheets;
      CachedWritesIff(sheets, engine, writes, sheet);
      engine := Put(engine, Write((sheet, row, col), input));
      sheets := sheets[(sheet, row, col) := Cached(input)];
      return Ok(());
    }

    /** The two loops that update the cache after a batch. */
    method UpdateCache(sheet: string, startRow: nat, startCol: nat, rows: seq<seq<Input>>)
      modifies this`sheets
      ensures sheets == CacheAll(old(sheets), BatchWrites(sheet, startRow, startCol, rows))
    {
      hide CacheAll, RowWrites, Cached;
      ghost var before := sheets;
      assert CacheAll(before, []) == before by {
        NoWrites(before);
      }
      for i := 0 to |rows|
        invariant sheets == CacheAll(before, BatchWrites(sheet, startRow, startCol, rows[..i]))
      {
        var row := rows[i];
        ghost var done := BatchWrites(sheet, startRow, startCol, rows[..i]);
        RowWritesNone(sheet, startRow + i, startCol, row, done);
        for j := 0 to |row|
          invariant sheets == CacheAll(before, done + RowWrites(sheet, startRow + i, startCol, row[..j]))
        {
          RowStep(before, done, sheet, startRow + i, startCol, row, j);
          sheets := sheets[(sheet, startRow + i, startCol + j) := Cached(row[j])];
        }
        assert row[..|row|] == row;
        BatchWritesPush(sheet, startRow, startCol, rows, i);
      }
      assert rows[..|rows|] == rows;
    }

    /** `set_values_batch` and `set_formulas_batch`. The engine takes the first `taken` writes; fewer than
        all of them is a failed call, and then the cache is left alone. */
    method SetBatch(sheet: string, startRow: nat, startCol: nat, rows: seq<seq<Input>>, taken: nat)
      returns (r: Result<(), CallError>)
      requires UniformRows(rows) && taken <= |BatchWrites(sheet, startRow, startCol, rows)|
      modifies this
      ensures var writes := BatchWrites(sheet, startRow, startCol, rows);
              && r == (if startRow == 0 || startCol == 0 then Err(NotOneBased)
                       else if taken < |writes| then Err(EngineError) else Ok(()))
              && engine == (if r == Err(NotOneBased) then old(engine) else PutAll(old(engine), writes[..taken]))
              && sheets == (if r.Ok? then CacheAll(old(sheets), writes) else old(sheets))
      ensures var writes := BatchWrites(sheet, startRow, startCol, rows);
              old(Coherent(sheets, engine)) ==>
                (Coherent(sheets, engine) <==> BatchHarmless(old(sheets), old(engine), writes, sheet, taken, r))
    {
      hide CacheAll, PutAll, RowWrites, BatchHarmless, Coherent;
      ghost var writes := BatchWrites(sheet, startRow, startCol, rows);
      BatchOneSheet(sheet, startRow, startCol, rows);
      BatchUniform(sheet, startRow, startCol, rows);
      BatchCoherent(sheets, engine, writes, sheet, taken);
      if startRow == 0 || startCol == 0 {
        return Err(NotOneBased);
      }
      engine := PutAll(engine, BatchWrites(sheet, startRow, startCol, rows)[..taken]);
      if taken < |BatchWrites(sheet, startRow, startCol, rows)| {
        return Err(EngineError);
      }
      assert writes[..|writes|] == writes;
      UpdateCache(sheet, startRow, startCol, rows);
      return Ok(());
    }

    /** `undo` and `redo`: the cache is dropped before the engine moves, and stays dropped when the
        engine refuses. */
    method UndoOrRedo(outcome: Result<Engine, ()>) returns (r: Result<(), CallError>)
      modifies this
      ensures sheets == map[] && Coherent(sheets, engine)
      ensures engine == if outcome.Ok? then outcome.value else old(engine)
      ensures r.Ok? <==> outcome.Ok?
    {
      sheets := map[];
      if outcome.Err? {
        return Err(EngineError);
      }
      engine := outcome.value;
      return Ok(());
    }

    /** `get_value`: the cache first, the engine if the cache has no value. */
    method GetValue(sheet: string, row: nat, col: nat) returns (r: Result<Option<Literal>, CallError>)
      ensures r.Err? <==> row == 0 || col == 0
      ensures r.Ok? ==>
                r.value == if Holds(sheets, (sheet, row, col)) then sheets[(sheet, row, col)]
                           else DirectRead(engine, (sheet, row, col))
    {
      if row == 0 || col == 0 {
        return Err(NotOneBased);
      }
      if (sheet, row, col) in sheets {
        var cached := sheets[(sheet, row, col)];
        if cached.Some? {
          return Ok(cached);
        }
      }
      return Ok(DirectRead(engine, (sheet, row, col)));
    }
  }

  /** Both ends of a batch. */
  lemma BatchCoherent(cache: Cache, e: Engine, writes: seq<Write>, sheet: string, taken: nat)
    requires OneSheet(writes, sheet) && Uniform(writes) && taken <= |writes|
    ensures Coherent(cache, PutAll(e, writes[..taken]))
            <==> BatchHarmless(cache, e, writes, sheet, taken, Err(EngineError))
    ensures Coherent(CacheAll(cache, writes), PutAll(e, writes))
            <==> BatchHarmless(cache, e, writes, sheet, taken, Ok(()))
    ensures BatchHarmless(cache, e, writes, sheet, taken, Err(NotOneBased))
  {
    hide Coherent, Spares, Overtaken;
    UncachedWritesIff(cache, e, writes[..taken], sheet);
    CachedWritesIff(cache, e, writes, sheet);
  }
}
