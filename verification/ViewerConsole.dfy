/**
 The viewer's window: arrivals are collected per device and flushed in batches
 into a table and the fleet map. Batching must not show: after a flush both hold
 what immediate updates would have left, and a device keeps its row for ever.
 */
module ViewerConsole {
  import opened Text
  import opened Decimal
  import opened StatusCodec
  import opened StatusStore
  import opened FleetMap

  const TABLE_STALE_MS := 5000

  datatype TableDeviceInfo = TableDeviceInfo(row: nat, status: DeviceStatus, lastSeenMs: int)

  /** The cells of one row, coordinates before rounding to one digit. */
  datatype Row = Row(deviceId: string, state: string, battery: i32, x: real, y: real, z: real, age: string, stale: bool)

  type Table = map<string, TableDeviceInfo>

  function AgeText(ageMs: int): string {
    if ageMs < 1000 then "now" else ToString(ageMs / 1000) + "s"
  }

  function DisplayState(status: DeviceStatus, ageMs: int): string {
    if ageMs > TABLE_STALE_MS then "STALE" else status.state
  }

  function Shown(status: DeviceStatus, ageMs: int): Row {
    Row(status.deviceId, DisplayState(status, ageMs), status.battery, status.x, status.y, status.z,
        AgeText(ageMs), ageMs > TABLE_STALE_MS)
  }

  /** What the cells of a row must say about a device at a given time. */
  ghost predicate CellsTell(row: Row, info: TableDeviceInfo, currentMs: int) {
    var status, ageMs := info.status, currentMs - info.lastSeenMs;
    && row.deviceId == status.deviceId && row.battery == status.battery
    && row.x == status.x && row.y == status.y && row.z == status.z
    && (ageMs > 5000 ==> row.state == "STALE" && row.stale)
    && (ageMs <= 5000 ==> row.state == status.state && !row.stale)
    && (ageMs < 1000 ==> row.age == "now")
    && (ageMs >= 1000 ==> exists seconds: nat ::
          seconds * 1000 <= ageMs < (seconds + 1) * 1000 && row.age == ToString(seconds) + "s")
  }

  lemma ShownTells(info: TableDeviceInfo, currentMs: int)
    ensures CellsTell(Shown(info.status, currentMs - info.lastSeenMs), info, currentMs)
  {
    hide ToString;
    var ageMs := currentMs - info.lastSeenMs;
    if ageMs >= 1000 {
      var seconds: nat := ageMs / 1000;
      assert Shown(info.status, ageMs).age == ToString(seconds) + "s";
    }
  }

  function TableStatuses(table: Table): map<string, DeviceStatus> {
    map id | id in table :: table[id].status
  }

  /** Known devices and rows 0..rowCount-1 correspond one to one. */
  ghost predicate RowsMatchDevices(table: Table, rowCount: nat) {
    && (forall id :: id in table ==> table[id].row < rowCount)
    && (forall id, other :: id in table && other in table && table[id].row == table[other].row ==> id == other)
    && (forall r :: 0 <= r < rowCount ==> HasRow(table, r))
  }

  predicate HasRow(table: Table, r: int) {
    exists id :: id in table && table[id].row == r
  }

  /** Every row shows its own device, at the age it had at some moment. */
  ghost predicate RowsShowDevices(table: Table, rows: seq<Row>) {
    forall id :: id in table && table[id].row < |rows| ==> ShowsAtSomeAge(rows[table[id].row], table[id].status)
  }

  ghost predicate ShowsAtSomeAge(row: Row, status: DeviceStatus) {
    exists ageMs :: row == Shown(status, ageMs)
  }

  /** Known devices keep their rows. */
  predicate KeepsRows(before: Table, after: Table) {
    forall id :: id in before ==> id in after && after[id].row == before[id].row
  }

  ghost predicate KeyedById(statuses: map<string, DeviceStatus>) {
    forall id :: id in statuses ==> statuses[id].deviceId == id
  }

  datatype UiEvent = Arrival(status: DeviceStatus) | FlushTimer(seenMs: int, mapSeenMs: int) | AgeTimer(nowMs: int)

  /** The statuses that arrived, in order. */
  function Arrivals(events: seq<UiEvent>): seq<DeviceStatus> {
    if events == [] then []
    else
      var last := events[|events| - 1];
      Arrivals(events[..|events| - 1]) + (if last.Arrival? then [last.status] else [])
  }

  /** What must be shown: the unbatched state at the last flush, or what was shown before if there was none. */
  function Flushed(shown: map<string, DeviceStatus>, before: seq<DeviceStatus>, events: seq<UiEvent>): map<string, DeviceStatus> {
    if events == [] then shown
    else if events[|events| - 1].FlushTimer? then LastById(before + Arrivals(events[..|events| - 1]))
    else Flushed(shown, before, events[..|events| - 1])
  }

  /** What is shown and what is pending make up the unbatched state, and the map agrees with the table. */
  ghost predicate Replicates(pending: map<string, DeviceStatus>, table: map<string, DeviceStatus>,
                             drawn: map<string, DeviceStatus>, arrived: seq<DeviceStatus>)
  {
    KeyedById(pending) && KeyedById(table) && drawn == table && table + pending == LastById(arrived)
  }

  class Console {
    var pendingStatuses: map<string, DeviceStatus>
    var tableDevices: Table
    var rows: seq<Row>
    const fleetMap: FleetMapWidget
    ghost var arrived: seq<DeviceStatus>   // every status received from the worker

    /** The two copies agree, and with what is pending they make up the unbatched state. */
    ghost predicate Valid()
      reads this, fleetMap
    {
      && fleetMap.Valid()
      && RowsMatchDevices(tableDevices, |rows|)
      && RowsShowDevices(tableDevices, rows)
      && Replicates(pendingStatuses, TableStatuses(tableDevices), StatusMap(fleetMap.devicesById), arrived)
    }

    constructor (fleetMap: FleetMapWidget)
      requires fleetMap.Valid() && fleetMap.devicesById == map[]
      ensures Valid() && this.fleetMap == fleetMap && pendingStatuses == map[] && tableDevices == map[] && arrived == []
    {
      pendingStatuses, tableDevices, rows := map[], map[], [];
      arrived := [];
      this.fleetMap := fleetMap;
    }

    method OnStatusReceived(status: DeviceStatus)
      requires Valid()
      modifies this`pendingStatuses, this`arrived
      ensures Valid() && arrived == old(arrived) + [status]
      ensures pendingStatuses == old(pendingStatuses)[status.deviceId := status]
    {
      hide FleetMapWidget.Valid, RowsMatchDevices, RowsShowDevices, Replicates, TableStatuses, StatusMap;
      ArrivalReplicates(pendingStatuses, TableStatuses(tableDevices), StatusMap(fleetMap.devicesById), arrived, status);
      pendingStatuses := pendingStatuses[status.deviceId := status];
      arrived := arrived + [status];
    }

    /** A new device gets the next row; a known one keeps its own. */
    method SetDeviceRow(status: DeviceStatus, seenMs: int)
      requires RowsMatchDevices(tableDevices, |rows|) && RowsShowDevices(tableDevices, rows)
      modifies this`tableDevices, this`rows
      ensures RowsMatchDevices(tableDevices, |rows|) && RowsShowDevices(tableDevices, rows)
      ensures KeepsRows(old(tableDevices), tableDevices)
      ensures status.deviceId in tableDevices && tableDevices[status.deviceId].row < |rows|
      ensures rows[tableDevices[status.deviceId].row]
        == Row(status.deviceId, status.state, status.battery, status.x, status.y, status.z, "now", false)
      ensures tableDevices ==
        old(tableDevices)[status.deviceId := TableDeviceInfo(tableDevices[status.deviceId].row, status, seenMs)]
    {
      var id := status.deviceId;
      ghost var before := tableDevices;
      var row := if id in tableDevices then tableDevices[id].row else |rows|;
      if id !in tableDevices {
        rows := rows + [Shown(status, 0)];
      }
      tableDevices := tableDevices[id := TableDeviceInfo(row, status, seenMs)];
      rows := rows[row := Shown(status, 0)];
      ShownFresh(status);
      hide RowsMatchDevices, RowsShowDevices, Shown;
      RowsStillMatch(before, tableDevices, |old(rows)|, row, status, seenMs);
      RowsStillShow(before, tableDevices, old(rows), rows, row, status, seenMs);
    }

    /** The flush timer. The pending statuses are walked in an arbitrary order. */
    method Flush(seenMs: int, mapSeenMs: int)
      requires Valid()
      modifies this`tableDevices, this`rows, this`pendingStatuses, fleetMap
      ensures Valid()
      ensures pendingStatuses == map[]
      ensures TableStatuses(tableDevices) == LastById(arrived)
      ensures StatusMap(fleetMap.devicesById) == LastById(arrived)
      ensures KeepsRows(old(tableDevices), tableDevices)
      ensures forall id :: id in tableDevices ==>
        if id in old(pendingStatuses) then tableDevices[id].status == old(pendingStatuses)[id] && tableDevices[id].lastSeenMs == seenMs
        else id in old(tableDevices) && tableDevices[id] == old(tableDevices)[id]
      ensures forall id :: id in fleetMap.devicesById ==>
        if id in old(pendingStatuses) then fleetMap.devicesById[id] == Snapshot(old(pendingStatuses)[id], mapSeenMs)
        else id in old(fleetMap.devicesById) && fleetMap.devicesById[id] == old(fleetMap.devicesById)[id]
    {
      hide LastById, RowsMatchDevices, RowsShowDevices, KeepsRows, FleetMapWidget.Valid, TableStatuses, StatusMap, Upserted;
      if pendingStatuses == map[] {
        NothingPending(TableStatuses(tableDevices));
        KeepsRowsReflexive(tableDevices);
        return;
      }
      ghost var before := tableDevices;
      var statuses: seq<DeviceStatus> := [];
      var remaining := pendingStatuses.Keys;
      FlushStarts(before, pendingStatuses, seenMs);
      while remaining != {}
        invariant remaining <= pendingStatuses.Keys
        invariant pendingStatuses == old(pendingStatuses)
        invariant fleetMap.Valid() && fleetMap.devicesById == old(fleetMap.devicesById)
        invariant RowsMatchDevices(tableDevices, |rows|) && RowsShowDevices(tableDevices, rows)
        invariant KeepsRows(before, tableDevices) && PartlyFlushed(before, tableDevices, pendingStatuses, remaining, seenMs)
        invariant LastById(statuses) == Done(pendingStatuses, remaining)
      {
        SomeDevice(remaining);
        var id :| id in remaining;
        ghost var mid := tableDevices;
        SetDeviceRow(pendingStatuses[id], seenMs);
        KeepsRowsTransitive(before, mid, tableDevices);
        LastByIdSnoc(statuses, pendingStatuses[id]);
        DoneOneMore(pendingStatuses, remaining, id);
        statuses := statuses + [pendingStatuses[id]];
        remaining := remaining - {id};
      }
      FlushEnds(before, tableDevices, pendingStatuses, seenMs);
      pendingStatuses := map[];
      fleetMap.UpsertDevices(statuses, mapSeenMs);
      NothingPending(TableStatuses(tableDevices));
    }

    /** The age timer: every row shows the age of its device now, and `STALE` beyond the limit. */
    method RefreshTableAges(currentMs: int)
      requires Valid()
      modifies this`rows
      ensures Valid() && |rows| == old(|rows|)
      ensures Refreshed(tableDevices, rows, {}, currentMs)
      ensures forall id :: id in tableDevices ==>
        tableDevices[id].row < |rows| && CellsTell(rows[tableDevices[id].row], tableDevices[id], currentMs)
    {
      hide FleetMapWidget.Valid, RowsMatchDevices, RowsShowDevices, Replicates, Shown, Refreshed, CellsTell;
      var remaining := tableDevices.Keys;
      RefreshStarts(tableDevices, rows, currentMs);
      while remaining != {}
        invariant remaining <= tableDevices.Keys && |rows| == old(|rows|)
        invariant Refreshed(tableDevices, rows, remaining, currentMs)
      {
        SomeDevice(remaining);
        var id :| id in remaining;
        var info := tableDevices[id];
        RefreshOneMore(tableDevices, rows, remaining, id, currentMs);
        rows := rows[info.row := Shown(info.status, currentMs - info.lastSeenMs)];
        remaining := remaining - {id};
      }
      RefreshEnds(tableDevices, rows, currentMs);
      RefreshedTells(tableDevices, rows, currentMs);
    }

    /**
     Any sequence of arrivals and timers, from any state: the table and the map hold
     what immediate updates up to the last flush would have left, and no device
     known before has changed its row.
     */
    method Run(events: seq<UiEvent>)
      requires Valid()
      modifies this, fleetMap
      ensures Valid() && arrived == old(arrived) + Arrivals(events)
      ensures TableStatuses(tableDevices) == StatusMap(fleetMap.devicesById)
        == Flushed(old(TableStatuses(tableDevices)), old(arrived), events)
      ensures TableStatuses(tableDevices) + pendingStatuses == LastById(old(arrived) + Arrivals(events))
      ensures KeepsRows(old(tableDevices), tableDevices)
    {
      hide LastById, RowsMatchDevices, RowsShowDevices, KeepsRows, TableStatuses, FleetMapWidget.Valid, StatusMap;
      assert events[..0] == [] && arrived + [] == arrived;
      KeepsRowsReflexive(tableDevices);
      for i := 0 to |events|
        invariant Valid() && arrived == old(arrived) + Arrivals(events[..i])
        invariant TableStatuses(tableDevices) == Flushed(old(TableStatuses(tableDevices)), old(arrived), events[..i])
        invariant KeepsRows(old(tableDevices), tableDevices)
      {
        ghost var mid := tableDevices;
        assert events[..i + 1][..i] == events[..i];
        match events[i] {
          case Arrival(status) => OnStatusReceived(status);
          case FlushTimer(seenMs, mapSeenMs) => Flush(seenMs, mapSeenMs);
          case AgeTimer(nowMs) => RefreshTableAges(nowMs);
        }
        KeepsRowsReflexive(mid);
        KeepsRowsTransitive(old(tableDevices), mid, tableDevices);
      }
      assert events[..|events|] == events;
    }
  }

  // ---- what the loops rely on ----

  /** The rows of the devices already walked show their age now. */
  ghost predicate Refreshed(table: Table, rows: seq<Row>, remaining: set<string>, currentMs: int) {
    forall id :: id in table && id !in remaining ==>
      table[id].row < |rows| && rows[table[id].row] == Shown(table[id].status, currentMs - table[id].lastSeenMs)
  }

  lemma RefreshStarts(table: Table, rows: seq<Row>, currentMs: int)
    ensures Refreshed(table, rows, table.Keys, currentMs)
  {
  }

  lemma RefreshOneMore(table: Table, rows: seq<Row>, remaining: set<string>, id: string, currentMs: int)
    requires RowsMatchDevices(table, |rows|) && Refreshed(table, rows, remaining, currentMs) && id in remaining && id in table
    ensures table[id].row < |rows|
    ensures var shown := Shown(table[id].status, currentMs - table[id].lastSeenMs);
            Refreshed(table, rows[table[id].row := shown], remaining - {id}, currentMs)
  {
    hide Shown, HasRow;
  }

  lemma RefreshedTells(table: Table, rows: seq<Row>, currentMs: int)
    requires Refreshed(table, rows, {}, currentMs)
    ensures forall id :: id in table ==> table[id].row < |rows| && CellsTell(rows[table[id].row], table[id], currentMs)
  {
    hide Shown, CellsTell;
    forall id | id in table ensures table[id].row < |rows| && CellsTell(rows[table[id].row], table[id], currentMs) {
      ShownTells(table[id], currentMs);
    }
  }

  lemma RefreshEnds(table: Table, rows: seq<Row>, currentMs: int)
    requires Refreshed(table, rows, {}, currentMs)
    ensures RowsShowDevices(table, rows)
  {
    hide Shown;
  }

  lemma ArrivalReplicates(pending: map<string, DeviceStatus>, table: map<string, DeviceStatus>,
                          drawn: map<string, DeviceStatus>, arrived: seq<DeviceStatus>, status: DeviceStatus)
    requires Replicates(pending, table, drawn, arrived)
    ensures Replicates(pending[status.deviceId := status], table, drawn, arrived + [status])
  {
    hide LastById;
    LastByIdSnoc(arrived, status);
    assert table + pending[status.deviceId := status] == (table + pending)[status.deviceId := status];
  }

  lemma RowsStillMatch(before: Table, after: Table, rowCount: nat, row: nat, status: DeviceStatus, seenMs: int)
    requires RowsMatchDevices(before, rowCount)
    requires row == (if status.deviceId in before then before[status.deviceId].row else rowCount)
    requires after == before[status.deviceId := TableDeviceInfo(row, status, seenMs)]
    ensures RowsMatchDevices(after, if status.deviceId in before then rowCount else rowCount + 1)
    ensures KeepsRows(before, after)
  {
    var rowCount' := if status.deviceId in before then rowCount else rowCount + 1;
    forall r | 0 <= r < rowCount' ensures HasRow(after, r) {
      if r < rowCount {
        assert HasRow(before, r);
        var id :| id in before && before[id].row == r;
        assert after[id].row == r;
      } else {
        assert after[status.deviceId].row == r;
      }
    }
  }

  lemma RowsStillShow(before: Table, after: Table, rows: seq<Row>, rows': seq<Row>, row: nat, status: DeviceStatus, seenMs: int)
    requires RowsMatchDevices(before, |rows|) && RowsShowDevices(before, rows)
    requires row == (if status.deviceId in before then before[status.deviceId].row else |rows|)
    requires after == before[status.deviceId := TableDeviceInfo(row, status, seenMs)]
    requires row < |rows'| && |rows| <= |rows'| && rows'[row] == Shown(status, 0)
    requires forall r :: 0 <= r < |rows| && r != row ==> rows'[r] == rows[r]
    ensures RowsShowDevices(after, rows')
  {
    hide Shown, ShowsAtSomeAge, HasRow;
    forall id | id in after && after[id].row < |rows'| ensures ShowsAtSomeAge(rows'[after[id].row], after[id].status) {
      if id == status.deviceId {
        ShowsNow(status);
      } else {
        assert before[id].row < |rows| && before[id].row != row;
      }
    }
  }

  lemma ShownFresh(status: DeviceStatus)
    ensures Shown(status, 0)
         == Row(status.deviceId, status.state, status.battery, status.x, status.y, status.z, "now", false)
  {
  }

  lemma ShowsNow(status: DeviceStatus)
    ensures ShowsAtSomeAge(Shown(status, 0), status)
  {
  }

  lemma KeepsRowsReflexive(table: Table)
    ensures KeepsRows(table, table)
  {
  }

  lemma KeepsRowsTransitive(a: Table, b: Table, c: Table)
    requires KeepsRows(a, b) && KeepsRows(b, c)
    ensures KeepsRows(a, c)
  {
  }

  lemma NothingPending(statuses: map<string, DeviceStatus>)
    ensures statuses + map[] == statuses
  {
  }

  /** The pending statuses already walked. */
  function Done(pending: map<string, DeviceStatus>, remaining: set<string>): map<string, DeviceStatus> {
    map id | id in pending && id !in remaining :: pending[id]
  }

  lemma DoneOneMore(pending: map<string, DeviceStatus>, remaining: set<string>, id: string)
    requires id in remaining && remaining <= pending.Keys
    ensures Done(pending, remaining - {id}) == Done(pending, remaining)[id := pending[id]]
  {
  }

  /** The table in the middle of a flush. */
  ghost predicate PartlyFlushed(before: Table, after: Table, pending: map<string, DeviceStatus>, remaining: set<string>, seenMs: int) {
    && (forall id :: id in before || (id in pending && id !in remaining) ==> id in after)
    && (forall id :: id in after ==>
          if id in pending && id !in remaining then after[id].status == pending[id] && after[id].lastSeenMs == seenMs
          else id in before && after[id] == before[id])
  }

  lemma FlushStarts(table: Table, pending: map<string, DeviceStatus>, seenMs: int)
    ensures PartlyFlushed(table, table, pending, pending.Keys, seenMs) && KeepsRows(table, table)
    ensures LastById([]) == Done(pending, pending.Keys)
  {
  }

  lemma FlushEnds(before: Table, after: Table, pending: map<string, DeviceStatus>, seenMs: int)
    requires PartlyFlushed(before, after, pending, {}, seenMs)
    ensures TableStatuses(after) == TableStatuses(before) + pending
    ensures Done(pending, {}) == pending
    ensures KeyedById(pending) && KeyedById(TableStatuses(before)) ==> KeyedById(TableStatuses(after))
  {
  }
}
