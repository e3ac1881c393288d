/** A prepared statement over an abstract result, with the engine free to fail at any step. */
module Statement {
  import opened Numbers

  datatype Cell = Null | Integer(i: int) | Text(s: string)
  {
    function AsString(): string {
      if Text? then s else ""
    }

    /** The column read as a 64-bit integer; NULL reads as 0. */
    function AsInt64(): int {
      if Integer? then i else 0
    }

    function AsInt32(): int {
      ToInt32(AsInt64())
    }
  }

  datatype Code = Row | Done | Misuse | Failed

  /** A value, or a `TrkDatabaseException`. */
  datatype Outcome<+T> = Value(value: T) | Exception

  /** The wrapper's two flags beside the engine's position in the result. */
  datatype Cursor = Cursor(next: nat, hasRow: bool, done: bool)

  const START := Cursor(0, false, false)

  /** `TryExecuteStep` over a result of `n` rows. A failing engine step forgets its position. */
  function Step(c: Cursor, n: nat, fails: bool): (Cursor, Code) {
    if c.done then (c, Misuse)
    else if fails then (Cursor(0, false, false), Failed)
    else if c.next < n then (Cursor(c.next + 1, true, false), Row)
    else (Cursor(c.next, false, true), Done)
  }

  class Statement {
    const rows: seq<seq<Cell>>
    const columns: seq<string>
    const changes: nat
    var cursor: Cursor
    var stepFailed: bool
    var faults: seq<bool>
    var columnNames: map<string, int>

    ghost predicate Valid()
      reads this
    {
      && Reachable(cursor, |rows|)
      && (columnNames == map[] || columnNames == LastIndices(columns))
      && forall k :: 0 <= k < |rows| ==> |rows[k]| == |columns|
    }

    constructor (columns: seq<string>, rows: seq<seq<Cell>>, changes: nat, faults: seq<bool>)
      requires forall k :: 0 <= k < |rows| ==> |rows[k]| == |columns|
      ensures Valid() && cursor == START && !stepFailed && this.faults == faults
      ensures this.columns == columns && this.rows == rows && this.changes == changes
    {
      this.columns, this.rows, this.changes, this.faults := columns, rows, changes, faults;
      cursor, stepFailed, columnNames := START, false, map[];
    }

    ghost predicate NextFails()
      reads this
    {
      faults != [] && faults[0]
    }

    method TryExecuteStep() returns (code: Code)
      requires Valid()
      modifies this`cursor, this`stepFailed, this`faults
      ensures Valid()
      ensures (cursor, code) == Step(old(cursor), |rows|, old(NextFails()))
      ensures stepFailed == if code == Misuse then old(stepFailed) else code == Failed
    {
      if cursor.done {
        return Misuse;
      }
      var fails := faults != [] && faults[0];
      faults := if faults == [] then [] else faults[1..];
      stepFailed := fails;
      if fails {
        cursor := Cursor(0, false, false);
        code := Failed;
      } else if cursor.next < |rows| {
        cursor := Cursor(cursor.next + 1, true, false);
        code := Row;
      } else {
        cursor := Cursor(cursor.next, false, true);
        code := Done;
      }
    }

    /** One row, or the end; anything else is an exception. */
    method ExecuteStep() returns (r: Outcome<bool>)
      requires Valid()
      modifies this`cursor, this`stepFailed, this`faults
      ensures Valid()
      ensures cursor == Step(old(cursor), |rows|, old(NextFails())).0
      ensures r == if old(cursor).done || old(NextFails()) then Exception
                   else Value(old(cursor).next < |rows|)
    {
      var code := TryExecuteStep();
      if code != Row && code != Done {
        return Exception;
      }
      r := Value(cursor.hasRow);
    }

    /** For statements without a result: a row is an exception too. */
    method Execute() returns (r: Outcome<nat>)
      requires Valid()
      modifies this`cursor, this`stepFailed, this`faults
      ensures Valid()
      ensures cursor == Step(old(cursor), |rows|, old(NextFails())).0
      ensures r == if old(cursor).done || old(NextFails()) || old(cursor).next < |rows| then Exception
                   else Value(changes)
    {
      var code := TryExecuteStep();
      r := if code != Done then Exception else Value(changes);
    }

    /** The engine reports the failed step once more, and the exception comes after the flags
        have been cleared. */
    method Reset() returns (threw: bool)
      requires Valid()
      modifies this`cursor, this`stepFailed
      ensures Valid() && cursor == START && !stepFailed
      ensures threw == old(stepFailed)
    {
      cursor := START;
      threw := stepFailed;
      stepFailed := false;
    }

    /** Readable only on a current row, which is the last one stepped to. */
    method GetColumn(index: int) returns (r: Outcome<Cell>)
      requires Valid()
      ensures r == if cursor.hasRow && 0 <= index < |columns|
                   then Value(rows[cursor.next - 1][index]) else Exception
    {
      if !cursor.hasRow {
        return Exception;
      }
      if index < 0 || index >= |columns| {
        return Exception;
      }
      r := Value(rows[cursor.next - 1][index]);
    }

    /** The lazily filled name map answers like a scan that takes the last duplicate. */
    method GetColumnIndex(name: string) returns (r: Outcome<int>)
      requires Valid()
      modifies this`columnNames
      ensures Valid()
      ensures r.Exception? <==> name !in columns
      ensures r.Value? ==> 0 <= r.value < |columns| && columns[r.value] == name && name !in columns[r.value + 1..]
    {
      if columnNames == map[] {
        var i := 0;
        while i < |columns|
          invariant 0 <= i <= |columns|
          invariant columnNames == LastIndices(columns[..i])
        {
          assert columns[..i + 1][..i] == columns[..i];
          columnNames := columnNames[columns[i] := i];
          i := i + 1;
        }
        assert columns[..i] == columns;
      }
      LastIndicesSpec(columns, name);
      r := if name in columnNames then Value(columnNames[name]) else Exception;
    }
  }

  /** What every run keeps: never both flags, a current row lies behind the position, and
      `done` only at the end. */
  ghost predicate Reachable(c: Cursor, n: nat) {
    && c.next <= n && !(c.hasRow && c.done)
    && (c.hasRow ==> c.next > 0)
    && (c.done ==> c.next == n)
  }

  function LastIndices(names: seq<string>): map<string, int> {
    if names == [] then map[]
    else LastIndices(names[..|names| - 1])[names[|names| - 1] := |names| - 1]
  }

  lemma {:induction false} LastIndicesSpec(names: seq<string>, name: string)
    ensures name in LastIndices(names) <==> name in names
    ensures name in LastIndices(names) ==>
      0 <= LastIndices(names)[name] < |names|
      && names[LastIndices(names)[name]] == name && name !in names[LastIndices(names)[name] + 1..]
  {
    if names != [] {
      var n := |names| - 1;
      var front := names[..n];
      LastIndicesSpec(front, name);
      assert names == front + [names[n]];
      if name != names[n] && name in front {
        var i := LastIndices(front)[name];
        assert names[i + 1..] == front[i + 1..] + [names[n]];
      }
    }
  }

  // ----- Whole runs

  /** One call: a step, which may fail, or a reset. */
  datatype Call = StepCall(fails: bool) | ResetCall

  /** The positions of the rows handed out since the engine last started over, and the
      cursor, after a run from the start. */
  function Run(calls: seq<Call>, n: nat): (seq<nat>, Cursor)
    decreases |calls|
  {
    if calls == [] then ([], START)
    else
      var (seen, c) := Run(calls[..|calls| - 1], n);
      match calls[|calls| - 1]
      case ResetCall => ([], START)
      case StepCall(fails) =>
        var (c', code) := Step(c, n, fails);
        match code
        case Row => (seen + [c'.next - 1], c')
        case Failed => ([], c')
        case _ => (seen, c')
  }

  /** In every run the rows come out in order and once each; a step after the end moves
      nothing and is refused until a reset. */
  lemma {:induction false} RunInOrder(calls: seq<Call>, n: nat)
    ensures var (seen, c) := Run(calls, n);
      && Reachable(c, n)
      && |seen| == c.next
      && (forall k :: 0 <= k < |seen| ==> seen[k] == k)
      && (c.done ==> |seen| == n && forall fails :: Step(c, n, fails) == (c, Misuse))
    decreases |calls|
  {
    if calls != [] {
      RunInOrder(calls[..|calls| - 1], n);
    }
  }

  /** `steps` steps that do not fail. */
  function Undisturbed(steps: nat): (calls: seq<Call>)
    ensures |calls| == steps && forall k :: 0 <= k < steps ==> calls[k] == StepCall(false)
  {
    seq(steps, _ => StepCall(false))
  }

  lemma {:induction false} RunStep(calls: seq<Call>, n: nat)
    ensures var (seen, c) := Run(calls, n); var (c', code) := Step(c, n, false);
      Run(calls + [StepCall(false)], n) == (if code == Row then seen + [c'.next - 1] else seen, c')
  {
    var all := calls + [StepCall(false)];
    assert all[..|all| - 1] == calls;
  }

  lemma UndisturbedSnoc(calls: seq<Call>, steps: nat)
    ensures calls + Undisturbed(0) == calls
    ensures calls + Undisturbed(steps + 1) == calls + Undisturbed(steps) + [StepCall(false)]
  {
  }

  lemma {:induction false} RunFresh(calls: seq<Call>, n: nat)
    requires calls == [] || calls[|calls| - 1] == ResetCall
    ensures Run(calls, n) == ([], START)
  {
  }

  /** Enough undisturbed steps after a reset hand out the whole result and then end. */
  lemma {:induction false} RunComplete(calls: seq<Call>, n: nat, steps: nat)
    requires calls == [] || calls[|calls| - 1] == ResetCall
    ensures var (seen, c) := Run(calls + Undisturbed(steps), n);
      && |seen| == (if steps <= n then steps else n)
      && c.done == (steps > n) && c.hasRow == (0 < steps <= n)
    decreases steps
  {
    hide Undisturbed, Run;
    if steps == 0 {
      UndisturbedSnoc(calls, 0);
      RunFresh(calls, n);
    } else {
      RunComplete(calls, n, steps - 1);
      RunInOrder(calls + Undisturbed(steps - 1), n);
      UndisturbedSnoc(calls, steps - 1);
      RunStep(calls + Undisturbed(steps - 1), n);
    }
  }
}
