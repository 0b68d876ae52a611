/** `fetchAndSaveFlights`: turns the cached lists the server publishes into
    rows of the `Flights` table. The HTTP fetch and the MySQL connection are
    left out: the published lists are a parameter, and the table is a class
    whose rows a transaction replaces. */
module UpdateFlights {
  import opened Wrappers
  import opened Flights
  import opened Strings

  /** `YYYYMMDD` to `YYYY-MM-DD`, by three substrings. */
  function FormatDate(s: string): string
  {
    Substring(s, 0, 4) + "-" + Substring(s, 4, 6) + "-" + Substring(s, 6, 8)
  }

  /** `YYYY-MM-DD` back to `YYYYMMDD`. */
  function CompactDate(d: string): string
    requires |d| >= 10
  {
    d[..4] + d[5..7] + d[8..10]
  }

  /** From a string of at least eight characters the date is ten characters
      long with a `-` at positions 4 and 7, and it keeps the first eight
      characters in order. */
  lemma {:induction false} FormatDateShape(s: string)
    requires |s| >= 8
    ensures var d := FormatDate(s);
      && |d| == 10 && d[4] == '-' && d[7] == '-'
      && CompactDate(d) == s[..8]
  {
    var d := FormatDate(s);
    assert d == s[0..4] + "-" + s[4..6] + "-" + s[6..8];
    assert d[..4] == s[0..4] && d[5..7] == s[4..6] && d[8..10] == s[6..8];
    assert s[..8] == s[0..4] + s[4..6] + s[6..8];
  }

  /** A date written as `YYYY-MM-DD` is what `FormatDate` makes of its
      compact form. */
  lemma {:induction false} FormatCompactDate(d: string)
    requires |d| == 10 && d[4] == '-' && d[7] == '-'
    ensures FormatDate(CompactDate(d)) == d
  {
    var s := CompactDate(d);
    assert s[0..4] == d[..4] && s[4..6] == d[5..7] && s[6..8] == d[8..10];
    assert d == d[..4] + "-" + d[5..7] + "-" + d[8..10];
  }

  /** An entry of `traceMap`. */
  datatype TraceInfo = TraceInfo(fromAirport: string, toAirport: string, dateOut: string)

  /** A trace string `…*…*FROM*TO*YYYYMMDD*…` read into a `traceMap` entry;
      `None` when it has fewer than five pieces, where `parts[4].substring`
      throws. */
  function ParseTrace(t: string): Option<TraceInfo>
  {
    var parts := Split(t, '*');
    if |parts| < 5 then None
    else Some(TraceInfo(parts[2], parts[3], FormatDate(parts[4])))
  }

  /** A trace made of pieces without `*` is read back into its third and
      fourth pieces and the formatted fifth. */
  lemma {:induction false} ParseJoinedTrace(parts: seq<string>)
    requires |parts| >= 5
    requires forall i :: 0 <= i < |parts| ==> '*' !in parts[i]
    ensures ParseTrace(Join(parts, '*')) == Some(TraceInfo(parts[2], parts[3], FormatDate(parts[4])))
  {
    JoinThenSplit(parts, '*');
  }

  /** Why a transaction is rolled back: the first entry's `PriceGrids.Grid`
      is missing, a trace has too few pieces, or a cell refers to a trace id
      that is not in `traceMap`. Each is a `TypeError` inside the `try`. */
  datatype SaveError = MissingGrid | BadTrace(id: string) | UnknownTraceRef(ref: string)

  /** `traceMap` built from the `Traces` object, in key order; the first
      trace that cannot be read aborts. */
  function TraceMap(traces: seq<(string, string)>): Result<map<string, TraceInfo>, SaveError>
  {
    if traces == [] then Ok(map[])
    else
      match TraceMap(traces[..|traces| - 1])
      case Err(e) => Err(e)
      case Ok(m) =>
        var (id, t) := traces[|traces| - 1];
        match ParseTrace(t)
        case None => Err(BadTrace(id))
        case Some(info) => Ok(m[id := info])
  }

  /** Building `traceMap` succeeds exactly when every trace can be read. */
  lemma {:induction false} TraceMapOk(traces: seq<(string, string)>)
    ensures TraceMap(traces).Ok? <==> forall i :: 0 <= i < |traces| ==> ParseTrace(traces[i].1).Some?
  {
    if traces != [] {
      var front := traces[..|traces| - 1];
      TraceMapOk(front);
      assert forall i :: 0 <= i < |front| ==> front[i] == traces[i];
    }
  }

  /** A built `traceMap` has exactly the ids of the traces as keys. */
  lemma {:induction false} TraceMapKeys(traces: seq<(string, string)>)
    requires TraceMap(traces).Ok?
    ensures forall id :: id in TraceMap(traces).value <==> exists i :: 0 <= i < |traces| && traces[i].0 == id
  {
    if traces != [] {
      var front := traces[..|traces| - 1];
      TraceMapKeysStep(traces);
      TraceMapKeys(front);
      IdsSnoc(traces, front, TraceMap(front).value.Keys, TraceMap(traces).value.Keys);
    }
  }

  /** The ids of one more trace are those of the others and its own. */
  lemma {:induction false} IdsSnoc(traces: seq<(string, string)>, front: seq<(string, string)>,
                                   before: set<string>, after: set<string>)
    requires traces != [] && front == traces[..|traces| - 1]
    requires forall id :: id in before <==> exists i :: 0 <= i < |front| && front[i].0 == id
    requires after == before + {traces[|traces| - 1].0}
    ensures forall id :: id in after <==> exists i :: 0 <= i < |traces| && traces[i].0 == id
  {
    var n := |traces| - 1;
    forall id ensures id in after <==> exists i :: 0 <= i < |traces| && traces[i].0 == id {
      if id == traces[n].0 {
        assert 0 <= n < |traces| && traces[n].0 == id;
      } else if id in before {
        var i :| 0 <= i < n && front[i].0 == id;
        assert 0 <= i < |traces| && traces[i].0 == id;
      }
      if exists i :: 0 <= i < |traces| && traces[i].0 == id {
        var i :| 0 <= i < |traces| && traces[i].0 == id;
        if i < n {
          assert 0 <= i < n && front[i].0 == id;
        }
      }
    }
  }

  /** One more trace adds its id to the keys. */
  lemma {:induction false} TraceMapKeysStep(traces: seq<(string, string)>)
    requires traces != [] && TraceMap(traces).Ok?
    ensures TraceMap(traces[..|traces| - 1]).Ok?
    ensures TraceMap(traces).value.Keys == TraceMap(traces[..|traces| - 1]).value.Keys + {traces[|traces| - 1].0}
  {
  }

  /** A built `traceMap` maps each id to its last trace. */
  lemma {:induction false} TraceMapValues(traces: seq<(string, string)>, i: nat)
    requires TraceMap(traces).Ok? && i < |traces|
    requires forall j :: i < j < |traces| ==> traces[j].0 != traces[i].0
    ensures traces[i].0 in TraceMap(traces).value
    ensures ParseTrace(traces[i].1) == Some(TraceMap(traces).value[traces[i].0])
  {
    var n := |traces| - 1;
    var front := traces[..n];
    assert TraceMap(front).Ok?;
    if i < n {
      assert front[i] == traces[i];
      forall j | i < j < |front| ensures front[j].0 != front[i].0 {
        assert front[j] == traces[j];
      }
      TraceMapValues(front, i);
    }
  }

  /** The loop that fills `traceMap`. */
  method BuildTraceMap(traces: seq<(string, string)>) returns (r: Result<map<string, TraceInfo>, SaveError>)
    ensures r == TraceMap(traces)
  {
    var traceMap: map<string, TraceInfo> := map[];
    var k := 0;
    while k < |traces|
      invariant 0 <= k <= |traces|
      invariant TraceMap(traces[..k]) == Ok(traceMap)
    {
      var (id, t) := traces[k];
      assert traces[..k + 1][..k] == traces[..k];
      var parts := Split(t, '*');
      if |parts| < 5 {
        TraceMapErrSticks(traces, k + 1);
        return Err(BadTrace(id));
      }
      var dateString := parts[4];
      traceMap := traceMap[id := TraceInfo(parts[2], parts[3], FormatDate(dateString))];
      k := k + 1;
    }
    assert traces[..k] == traces;
    r := Ok(traceMap);
  }

  lemma {:induction false} TraceMapErrSticks(traces: seq<(string, string)>, k: nat)
    requires k <= |traces| && TraceMap(traces[..k]).Err?
    ensures TraceMap(traces) == TraceMap(traces[..k])
  {
    if k < |traces| {
      var front := traces[..|traces| - 1];
      assert front[..k] == traces[..k];
      TraceMapErrSticks(front, k);
    } else {
      assert traces[..k] == traces;
    }
  }

  /** `cell && cell.Indirect && cell.Indirect.Price && cell.Indirect.TraceRefs
      && cell.Indirect.TraceRefs.length === 2`. */
  predicate Accepts(cell: Option<Cell>)
  {
    && cell.Some? && cell.value.indirect.Some?
    && cell.value.indirect.value.price.Some? && cell.value.indirect.value.price.value != 0
    && cell.value.indirect.value.traceRefs.Some? && |cell.value.indirect.value.traceRefs.value| == 2
  }

  /** One row of the `Flights` table; `refreshed_at` and `stay_days` are left
      out. */
  datatype Row = Row(fromAirport: string, toAirport: string, dateOut: string, dateBack: string,
                     airline: string, isDirect: nat, price: nat)

  /** The row an accepted cell is written as. `inTrace.date_out` is read
      before `outTrace.date_out`, so an unknown inbound trace is reported
      first. */
  function CellRow(cell: Option<Cell>, traceMap: map<string, TraceInfo>): (r: Result<Row, SaveError>)
    requires Accepts(cell)
    ensures var refs := cell.value.indirect.value.traceRefs.value;
      r.Ok? <==> refs[0] in traceMap && refs[1] in traceMap
    ensures var ind := cell.value.indirect.value;
      r.Ok? ==>
        && r.value.fromAirport == traceMap[ind.traceRefs.value[0]].fromAirport
        && r.value.toAirport == traceMap[ind.traceRefs.value[0]].toAirport
        && r.value.dateOut == traceMap[ind.traceRefs.value[0]].dateOut
        && r.value.dateBack == traceMap[ind.traceRefs.value[1]].dateOut
        && r.value.price == ind.price.value
  {
    var ind := cell.value.indirect.value;
    var refs := ind.traceRefs.value;
    if refs[1] !in traceMap then Err(UnknownTraceRef(refs[1]))
    else if refs[0] !in traceMap then Err(UnknownTraceRef(refs[0]))
    else
      var outTrace, inTrace := traceMap[refs[0]], traceMap[refs[1]];
      Ok(Row(outTrace.fromAirport, outTrace.toAirport, outTrace.dateOut, inTrace.dateOut, "", 0, ind.price.value))
  }

  /** The cells of a grid in row-major order. */
  function Flatten(grid: seq<seq<Option<Cell>>>): seq<Option<Cell>>
  {
    if grid == [] then [] else Flatten(grid[..|grid| - 1]) + grid[|grid| - 1]
  }

  /** The accepted cells, in order: the reference the emitted rows are
      compared with. */
  function Accepted(cells: seq<Option<Cell>>): (r: seq<Option<Cell>>)
    ensures forall c :: c in r <==> c in cells && Accepts(c)
  {
    if cells == [] then []
    else
      var rest := Accepted(cells[..|cells| - 1]);
      if Accepts(cells[|cells| - 1]) then rest + [cells[|cells| - 1]] else rest
  }

  /** The rows the cells produce, in order; the first unknown trace
      reference aborts. */
  function CellsRows(cells: seq<Option<Cell>>, traceMap: map<string, TraceInfo>): Result<seq<Row>, SaveError>
  {
    if cells == [] then Ok([])
    else
      match CellsRows(cells[..|cells| - 1], traceMap)
      case Err(e) => Err(e)
      case Ok(rows) =>
        var cell := cells[|cells| - 1];
        if !Accepts(cell) then Ok(rows)
        else
          match CellRow(cell, traceMap)
          case Err(e) => Err(e)
          case Ok(row) => Ok(rows + [row])
  }

  /** One row per accepted cell, in grid order, made by `CellRow`; and no
      rows at all when an accepted cell refers to an unknown trace. */
  lemma {:induction false} CellsRowsAre(cells: seq<Option<Cell>>, traceMap: map<string, TraceInfo>)
    ensures CellsRows(cells, traceMap).Ok? <==>
      forall c :: c in Accepted(cells) ==> CellRow(c, traceMap).Ok?
    ensures CellsRows(cells, traceMap).Ok? ==>
      var rows := CellsRows(cells, traceMap).value;
      && |rows| == |Accepted(cells)|
      && forall k :: 0 <= k < |rows| ==> Ok(rows[k]) == CellRow(Accepted(cells)[k], traceMap)
  {
    if cells != [] {
      var front, cell := cells[..|cells| - 1], cells[|cells| - 1];
      CellsRowsAre(front, traceMap);
      var acc := Accepted(front);
      if CellsRows(front, traceMap).Ok? && Accepts(cell) {
        assert Accepted(cells) == acc + [cell];
        assert forall c :: c in acc + [cell] <==> c in acc || c == cell;
      }
    }
  }

  lemma {:induction false} CellsRowsErrSticks(cells: seq<Option<Cell>>, more: seq<Option<Cell>>,
                                              traceMap: map<string, TraceInfo>)
    requires CellsRows(cells, traceMap).Err?
    ensures CellsRows(cells + more, traceMap) == CellsRows(cells, traceMap)
  {
    if more == [] {
      assert cells + more == cells;
    } else {
      var front := more[..|more| - 1];
      CellsRowsErrSticks(cells, front, traceMap);
      assert (cells + more)[..|cells + more| - 1] == cells + front;
    }
  }

  /** The rows one cache key contributes. Only the key's first (cheapest)
      entry is read; an empty list, or a first entry without `data`, gives
      none. */
  function KeyRows(entries: seq<Entry>): (r: Result<seq<Row>, SaveError>)
    // a key whose list is empty, or whose first entry has no data, adds nothing
    ensures |entries| == 0 || entries[0].flight.data.None? ==> r == Ok([])
    // with data but no price grid the load fails
    ensures |entries| > 0 && entries[0].flight.data.Some? && entries[0].flight.data.value.grid.None? ==>
      r == Err(MissingGrid)
    // with a grid but an unreadable trace the load fails with that trace's error
    ensures |entries| > 0 && entries[0].flight.data.Some? && entries[0].flight.data.value.grid.Some?
            && TraceMap(entries[0].flight.data.value.traces).Err? ==>
      r == Err(TraceMap(entries[0].flight.data.value.traces).error)
    // otherwise the rows are those of the first entry's grid, read through its traces
    ensures |entries| > 0 && entries[0].flight.data.Some? && entries[0].flight.data.value.grid.Some?
            && TraceMap(entries[0].flight.data.value.traces).Ok? ==>
      r == CellsRows(Flatten(entries[0].flight.data.value.grid.value), TraceMap(entries[0].flight.data.value.traces).value)
  {
    if |entries| == 0 || entries[0].flight.data.None? then Ok([])
    else
      var data := entries[0].flight.data.value;
      if data.grid.None? then Err(MissingGrid)
      else
        match TraceMap(data.traces)
        case Err(e) => Err(e)
        case Ok(traceMap) => CellsRows(Flatten(data.grid.value), traceMap)
  }

  /** Only `countryData[0]` is read: the other entries make no difference. */
  lemma {:induction false} OnlyFirstEntryRead(entries: seq<Entry>)
    requires |entries| > 0
    ensures KeyRows(entries) == KeyRows(entries[..1])
  {
    assert entries[..1][0] == entries[0];
  }

  /** All rows of one load: each key's rows in key order; any error aborts. */
  function SaveRows(flightsByCountry: seq<(string, seq<Entry>)>): Result<seq<Row>, SaveError>
  {
    if flightsByCountry == [] then Ok([])
    else
      match SaveRows(flightsByCountry[..|flightsByCountry| - 1])
      case Err(e) => Err(e)
      case Ok(rows) =>
        match KeyRows(flightsByCountry[|flightsByCountry| - 1].1)
        case Err(e) => Err(e)
        case Ok(more) => Ok(rows + more)
  }

  /** A load commits exactly when every key's rows can be built. */
  lemma {:induction false} SaveRowsOk(flightsByCountry: seq<(string, seq<Entry>)>)
    ensures SaveRows(flightsByCountry).Ok? <==>
      forall i :: 0 <= i < |flightsByCountry| ==> KeyRows(flightsByCountry[i].1).Ok?
  {
    if flightsByCountry != [] {
      var front := flightsByCountry[..|flightsByCountry| - 1];
      SaveRowsOk(front);
      assert forall i :: 0 <= i < |front| ==> front[i] == flightsByCountry[i];
    }
  }

  /** `SaveRows` over one more key. */
  lemma {:induction false} SaveRowsStep(flightsByCountry: seq<(string, seq<Entry>)>, k: nat)
    requires k < |flightsByCountry| && SaveRows(flightsByCountry[..k]).Ok?
    ensures var key := KeyRows(flightsByCountry[k].1);
      SaveRows(flightsByCountry[..k + 1]) ==
        if key.Ok? then Ok(SaveRows(flightsByCountry[..k]).value + key.value) else Err(key.error)
  {
    assert flightsByCountry[..k + 1][..k] == flightsByCountry[..k];
  }

  lemma {:induction false} SaveRowsErrSticks(flightsByCountry: seq<(string, seq<Entry>)>, k: nat)
    requires k <= |flightsByCountry| && SaveRows(flightsByCountry[..k]).Err?
    ensures SaveRows(flightsByCountry).Err?
  {
    if k < |flightsByCountry| {
      var front := flightsByCountry[..|flightsByCountry| - 1];
      assert front[..k] == flightsByCountry[..k];
      SaveRowsErrSticks(front, k);
    } else {
      assert flightsByCountry[..k] == flightsByCountry;
    }
  }

  /** The `Flights` table. */
  class FlightsTable {
    var rows: seq<Row>

    constructor (initial: seq<Row>)
      ensures rows == initial
    {
      rows := initial;
    }

    /** The loops over the grid's rows and cells: one `INSERT` per accepted
        cell. When a cell refers to an unknown trace it stops, with the rows
        inserted so far left for the caller to roll back. */
    method InsertGrid(grid: seq<seq<Option<Cell>>>, traceMap: map<string, TraceInfo>) returns (ok: bool)
      modifies this
      ensures ok <==> CellsRows(Flatten(grid), traceMap).Ok?
      ensures ok ==> rows == old(rows) + CellsRows(Flatten(grid), traceMap).value
    {
      var r := 0;
      while r < |grid|
        invariant 0 <= r <= |grid|
        invariant CellsRows(Flatten(grid[..r]), traceMap).Ok?
        invariant rows == old(rows) + CellsRows(Flatten(grid[..r]), traceMap).value
      {
        var row := grid[r];
        assert grid[..r + 1][..r] == grid[..r];
        assert Flatten(grid[..r + 1]) == Flatten(grid[..r]) + row;
        assert row[..0] == [];
        assert Flatten(grid[..r]) + row[..0] == Flatten(grid[..r]);
        var c := 0;
        while c < |row|
          invariant 0 <= c <= |row|
          invariant CellsRows(Flatten(grid[..r]) + row[..c], traceMap).Ok?
          invariant rows == old(rows) + CellsRows(Flatten(grid[..r]) + row[..c], traceMap).value
        {
          var cell := row[c];
          var done := Flatten(grid[..r]) + row[..c];
          assert (done + [cell])[..|done|] == done;
          assert Flatten(grid[..r]) + row[..c + 1] == done + [cell];
          if Accepts(cell) {
            var refs := cell.value.indirect.value.traceRefs.value;
            if refs[1] !in traceMap || refs[0] !in traceMap {
              GridErrSticks(grid, r, c + 1, traceMap);
              return false;
            }
            var outTrace, inTrace := traceMap[refs[0]], traceMap[refs[1]];
            var price := cell.value.indirect.value.price.value;
            rows := rows + [Row(outTrace.fromAirport, outTrace.toAirport, outTrace.dateOut,
                                inTrace.dateOut, "", 0, price)];
          }
          c := c + 1;
        }
        assert row[..c] == row;
        r := r + 1;
      }
      assert grid[..r] == grid;
      ok := true;
    }

    /** The body of the loop over the keys: skip a key without a first
        entry with data, read its traces into `traceMap`, then insert the rows
        of its grid. On an error the rows inserted so far are left for the
        caller to roll back. */
    method InsertKeyRows(countryData: seq<Entry>) returns (ok: bool)
      modifies this
      ensures ok <==> KeyRows(countryData).Ok?
      ensures ok ==> rows == old(rows) + KeyRows(countryData).value
    {
      if |countryData| == 0 || countryData[0].flight.data.None? {
        assert rows == old(rows) + [];
        return true;
      }
      var data := countryData[0].flight.data.value;
      if data.grid.None? {
        return false;
      }
      var traceMap := BuildTraceMap(data.traces);
      if traceMap.Err? {
        return false;
      }
      ok := InsertGrid(data.grid.value, traceMap.value);
    }

    /** `fetchAndSaveFlights`: inside one transaction, delete every row and
        insert the rows of each key in turn; commit, or on the first error
        roll back to the rows there were before. */
    method FetchAndSaveFlights(flightsByCountry: seq<(string, seq<Entry>)>) returns (committed: bool)
      modifies this
      ensures committed <==> SaveRows(flightsByCountry).Ok?
      ensures committed ==> rows == SaveRows(flightsByCountry).value
      ensures !committed ==> rows == old(rows)
    {
      var before := rows;
      rows := [];
      var k := 0;
      while k < |flightsByCountry|
        invariant 0 <= k <= |flightsByCountry| && before == old(rows)
        invariant SaveRows(flightsByCountry[..k]) == Ok(rows)
      {
        SaveRowsStep(flightsByCountry, k);
        var ok := InsertKeyRows(flightsByCountry[k].1);
        if !ok {
          SaveRowsErrSticks(flightsByCountry, k + 1);
          rows := before;
          return false;
        }
        k := k + 1;
      }
      assert flightsByCountry[..k] == flightsByCountry;
      committed := true;
    }
  }

  lemma {:induction false} FlattenAppend(a: seq<seq<Option<Cell>>>, b: seq<seq<Option<Cell>>>)
    ensures Flatten(a + b) == Flatten(a) + Flatten(b)
  {
    if b == [] {
      assert a + b == a;
    } else {
      var front := b[..|b| - 1];
      FlattenAppend(a, front);
      assert (a + b)[..|a + b| - 1] == a + front;
    }
  }

  lemma {:induction false} FlattenAt(grid: seq<seq<Option<Cell>>>, r: nat)
    requires r < |grid|
    ensures Flatten(grid) == Flatten(grid[..r]) + (grid[r] + Flatten(grid[r + 1..]))
  {
    var rest := [grid[r]] + grid[r + 1..];
    assert grid == grid[..r] + rest;
    FlattenAppend(grid[..r], rest);
    FlattenAppend([grid[r]], grid[r + 1..]);
    assert Flatten([grid[r]]) == grid[r] by {
      assert [grid[r]][..0] == [];
    }
  }

  /** Once a cell of row `r` fails, the whole grid fails. */
  lemma {:induction false} GridErrSticks(grid: seq<seq<Option<Cell>>>, r: nat, c: nat, traceMap: map<string, TraceInfo>)
    requires r < |grid| && c <= |grid[r]|
    requires CellsRows(Flatten(grid[..r]) + grid[r][..c], traceMap).Err?
    ensures CellsRows(Flatten(grid), traceMap).Err?
  {
    FlattenAt(grid, r);
    var a, b1, b2, d := Flatten(grid[..r]), grid[r][..c], grid[r][c..], Flatten(grid[r + 1..]);
    assert grid[r] == b1 + b2;
    assert a + ((b1 + b2) + d) == (a + b1) + (b2 + d);
    CellsRowsErrSticks(a + b1, b2 + d, traceMap);
  }
}
