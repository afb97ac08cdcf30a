/** The persisted inventory (internal/store/store.go) as a table of rows keyed by
    MAC. Save owns every column but name, SetName owns name. */
module Store {
  import opened Text
  import opened Model
  import opened Mac
  import R = Registry

  /** None is SQL NULL; times are milliseconds since the Unix epoch. */
  datatype Row = Row(
    name: Option<string>, reportedName: Option<string>, role: Role, lastKnownIP: Option<string>,
    lastKnownChannel: Option<int>, productName: Option<string>, model: Option<string>,
    firmware: Option<string>, firstSeenAt: int, lastSeenAt: Option<int>)

  type Rows = map<string, Row>

  /** Go's zero time.Time, 1 January of year 1, in nanoseconds. */
  const ZERO_TIME := -62135596800 * 1000000000

  function UnixMilli(t: int): int {
    t / 1000000
  }

  function FromMilli(ms: int): int {
    ms * 1000000
  }

  function EmptyNull(s: string): Option<string> {
    if s == "" then None else Some(s)
  }

  function OrEmpty(s: Option<string>): string {
    if s.Some? then s.value else ""
  }

  function RowOf(a: Adapter): Row {
    Row(a.name, EmptyNull(a.reportedName), a.role, EmptyNull(a.ip), a.channel, EmptyNull(a.productName),
        EmptyNull(a.model), EmptyNull(a.firmware), UnixMilli(a.firstSeenAt),
        if a.lastSeenAt == ZERO_TIME then None else Some(UnixMilli(a.lastSeenAt)))
  }

  /** The upsert: the stored name survives a conflict. */
  function Saved(rows: Rows, a: Adapter): Rows {
    rows[a.mac := if a.mac in rows then RowOf(a).(name := rows[a.mac].name) else RowOf(a)]
  }

  /** None is ErrNotFound. */
  function NameStored(rows: Rows, mac: string, name: Option<string>): Option<Rows> {
    if mac in rows then Some(rows[mac := rows[mac].(name := name)]) else None
  }

  function AdapterOf(mac: string, row: Row): Adapter {
    Adapter(mac, AdapterID(mac), row.role, OrEmpty(row.lastKnownIP), row.name, OrEmpty(row.reportedName),
            OrEmpty(row.productName), OrEmpty(row.model), OrEmpty(row.firmware), row.lastKnownChannel, false,
            FromMilli(row.firstSeenAt), if row.lastSeenAt.Some? then FromMilli(row.lastSeenAt.value) else ZERO_TIME)
  }

  /** What a restart loads. */
  function Restored(rows: Rows): R.Inventory {
    map m | m in rows :: AdapterOf(m, rows[m])
  }

  function ToMilli(t: int): int {
    FromMilli(UnixMilli(t))
  }

  /** Times are cut to the millisecond, downwards. */
  lemma MilliTruncates(t: int)
    ensures ToMilli(t) <= t < ToMilli(t) + 1_000_000 && ToMilli(t) % 1_000_000 == 0
  {
  }

  /** A row loses nothing but the online flag and sub-millisecond times: empty
      strings, absent names, absent channels and the zero time all survive. */
  lemma RowRoundTrip(a: Adapter)
    requires a.id == AdapterID(a.mac)
    ensures AdapterOf(a.mac, RowOf(a)) ==
            a.(online := false, firstSeenAt := ToMilli(a.firstSeenAt), lastSeenAt := ToMilli(a.lastSeenAt))
  {
    assert ToMilli(ZERO_TIME) == ZERO_TIME;
  }

  // ----- Column ownership -----

  datatype Op = SaveRow(snapshot: Adapter) | NameRow(mac: string, name: Option<string>)

  function ApplyOp(rows: Rows, op: Op): Rows {
    match op
    case SaveRow(a) => Saved(rows, a)
    case NameRow(m, n) => if NameStored(rows, m, n).Some? then NameStored(rows, m, n).value else rows
  }

  function RunOps(rows: Rows, ops: seq<Op>): Rows
    decreases |ops|
  {
    if ops == [] then rows else RunOps(ApplyOp(rows, ops[0]), ops[1..])
  }

  /** The last name set for m among ops, else the one it starts with. */
  function LastName(ops: seq<Op>, m: string, start: Option<string>): Option<string>
    decreases |ops|
  {
    if ops == [] then start
    else LastName(ops[1..], m, if ops[0].NameRow? && ops[0].mac == m then ops[0].name else start)
  }

  /** The hardware columns of the last snapshot saved for m, else of start. */
  function LastHardware(ops: seq<Op>, m: string, start: Row): Row
    decreases |ops|
  {
    if ops == [] then start
    else LastHardware(ops[1..], m, if ops[0].SaveRow? && ops[0].snapshot.mac == m then RowOf(ops[0].snapshot)
        else start)
  }

  /** However saves of arbitrarily old snapshots interleave with renames of an
      existing row, its name is the last one set and its other columns are those
      of the last save. */
  lemma {:induction false} ColumnsAreOwned(rows: Rows, ops: seq<Op>, m: string)
    requires m in rows
    ensures m in RunOps(rows, ops)
    ensures RunOps(rows, ops)[m].name == LastName(ops, m, rows[m].name)
    ensures RunOps(rows, ops)[m].(name := None) == LastHardware(ops, m, rows[m]).(name := None)
    decreases |ops|
  {
    if ops != [] {
      var next := ApplyOp(rows, ops[0]);
      ColumnsAreOwned(next, ops[1..], m);
      var start := if ops[0].SaveRow? && ops[0].snapshot.mac == m then RowOf(ops[0].snapshot) else rows[m];
      HardwareIgnoresName(ops[1..], m, next[m], start);
    }
  }

  lemma {:induction false} HardwareIgnoresName(ops: seq<Op>, m: string, x: Row, y: Row)
    requires x.(name := None) == y.(name := None)
    ensures LastHardware(ops, m, x).(name := None) == LastHardware(ops, m, y).(name := None)
    decreases |ops|
  {
    if ops != [] {
      var saved := ops[0].SaveRow? && ops[0].snapshot.mac == m;
      HardwareIgnoresName(ops[1..], m, if saved then RowOf(ops[0].snapshot) else x, if saved
          then RowOf(ops[0].snapshot) else y);
    }
  }

  // ----- Restart -----

  /** Every row once, as LoadAll returns them. */
  predicate LoadedFrom(rows: Rows, loaded: seq<Adapter>) {
    && (forall i | 0 <= i < |loaded| ::
         loaded[i].mac in rows && loaded[i] == AdapterOf(loaded[i].mac, rows[loaded[i].mac]))
    && (forall m | m in rows :: AdapterOf(m, rows[m]) in loaded)
  }

  lemma {:induction false} HydratedKeys(reg: R.Inventory, loaded: seq<Adapter>, m: string)
    ensures m in R.Hydrated(reg, loaded) <==> m in reg || exists i | 0 <= i < |loaded| :: loaded[i].mac == m
    decreases |loaded|
  {
    if loaded != [] {
      HydratedKeys(reg[loaded[0].mac := loaded[0].(online := false)], loaded[1..], m);
      assert forall i | 0 < i < |loaded| :: loaded[i] == loaded[1..][i - 1];
    }
  }

  lemma {:induction false} HydratedValues(reg: R.Inventory, rows: Rows, loaded: seq<Adapter>, m: string)
    requires forall i | 0 <= i < |loaded| ::
             loaded[i].mac in rows && loaded[i] == AdapterOf(loaded[i].mac, rows[loaded[i].mac])
    requires forall k | k in reg :: k in rows && reg[k] == AdapterOf(k, rows[k])
    requires m in R.Hydrated(reg, loaded)
    ensures m in rows && R.Hydrated(reg, loaded)[m] == AdapterOf(m, rows[m])
    decreases |loaded|
  {
    if loaded != [] {
      HydratedValues(reg[loaded[0].mac := loaded[0].(online := false)], rows, loaded[1..], m);
    }
  }

  /** Hydrating an empty registry from LoadAll gives Restored, in any row order. */
  lemma HydrateRestores(rows: Rows, loaded: seq<Adapter>)
    requires LoadedFrom(rows, loaded)
    ensures R.Hydrated(map[], loaded) == Restored(rows)
  {
    var reg := R.Hydrated(map[], loaded);
    forall m ensures m in reg <==> m in rows {
      HydratedKeys(map[], loaded, m);
      if m in rows {
        var i :| 0 <= i < |loaded| && loaded[i] == AdapterOf(m, rows[m]);
        assert loaded[i].mac == m;
      }
    }
    forall m | m in reg ensures reg[m] == Restored(rows)[m] {
      HydratedValues(map[], rows, loaded, m);
    }
  }

  // ----- The store object -----

  class SQLite {
    var rows: Rows

    constructor ()
      ensures rows == map[]
    {
      rows := map[];
    }

    /** Every row as an adapter, ordered by MAC as the query asks. */
    method LoadAll() returns (loaded: seq<Adapter>)
      ensures LoadedFrom(rows, loaded) && R.ByMac(loaded)
      ensures "" !in rows ==> R.LoadableAdapters(loaded)
    {
      var out: seq<Adapter> := [];
      var rest := rows.Keys;
      while rest != {}
        invariant rest <= rows.Keys
        invariant forall i | 0 <= i < |out| ::
                    out[i].mac in rows && out[i].mac !in rest && out[i] == AdapterOf(out[i].mac, rows[out[i].mac])
        invariant forall m | m in rows && m !in rest :: AdapterOf(m, rows[m]) in out
        invariant R.DistinctMacs(out)
        decreases rest
      {
        var m :| m in rest;
        rest := rest - {m};
        out := out + [AdapterOf(m, rows[m])];
      }
      R.SortedByMac(out);
      loaded := R.SortByMac(out);
      forall i | 0 <= i < |loaded| ensures loaded[i].mac in rows &&
          loaded[i] == AdapterOf(loaded[i].mac, rows[loaded[i].mac]) {
        assert loaded[i] in out;
      }
    }

    method Save(a: Adapter)
      modifies this
      ensures rows == Saved(old(rows), a)
    {
      var row := RowOf(a);
      if a.mac in rows {
        row := row.(name := rows[a.mac].name);
      }
      rows := rows[a.mac := row];
    }

    method SetName(mac: string, name: Option<string>) returns (found: bool)
      modifies this
      ensures found <==> mac in old(rows)
      ensures rows == if found then NameStored(old(rows), mac, name).value else old(rows)
    {
      found := mac in rows;
      if found {
        rows := rows[mac := rows[mac].(name := name)];
      }
    }
  }
}
