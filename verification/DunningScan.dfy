/** The dunning job's subject query over the receivables. */
module DunningScan {
  import opened GoTime
  import opened Scans
  import opened ScanOrder

  /** A receivable; live is open or partially paid. */
  datatype Row = Row(org: string, customer: string, due: int, live: bool)

  /** The receivables by id. */
  type Table = map<string, Row>

  function SlotOf(table: Table, id: string): Slot
    requires id in table
  {
    Slot(table[id].due, id)
  }

  function Live(table: Table): set<Slot> { set id | id in table && table[id].live :: SlotOf(table, id) }

  function Window(table: Table, horizon: int): set<Slot> { set s | s in Live(table) && s.due <= horizon }

  ghost function Scan(table: Table, horizon: int, batch: nat): seq<Slot> { First(Window(table, horizon), batch) }

  /** The live receivables that precede one in the scan's order. */
  function Ahead(table: Table, id: string): set<Slot>
    requires id in table
  {
    Preceding(Live(table), SlotOf(table, id))
  }

  lemma AheadIsNear(table: Table, horizon: int, id: string)
    requires id in table && table[id].due <= horizon
    ensures Ahead(table, id) == Preceding(Window(table, horizon), SlotOf(table, id))
  {
  }

  /** A live receivable is scanned exactly when it is due by the horizon and fewer than `batch` live ones precede it. */
  lemma ScannedExactly(table: Table, horizon: int, batch: nat, id: string)
    requires id in table && table[id].live
    ensures SlotOf(table, id) in Scan(table, horizon, batch)
            <==> table[id].due <= horizon && |Ahead(table, id)| < batch
  {
    hide First, Preceding;
    if table[id].due <= horizon {
      AheadIsNear(table, horizon, id);
      SelectedExactly(Window(table, horizon), batch, SlotOf(table, id));
    }
  }

  /** What the job scans at an instant. */
  ghost function Scanned(table: Table, ladder: seq<Step>, now: int, batch: nat): seq<Slot> {
    Scan(table, now + Wrap64((1 - Earliest(ladder)) * DAY), batch)
  }

  /** A live receivable with work is scanned exactly when fewer than `batch` live ones precede it. */
  ghost predicate WorkScanned(
      table: Table, ladder: seq<Step>, now: int, batch: nat, id: string, sent: set<string>)
  {
    id in table && table[id].live && HasWork(ladder, now, table[id].due, sent) ==>
      (SlotOf(table, id) in Scanned(table, ladder, now, batch) <==> |Ahead(table, id)| < batch)
  }

  /**
   * For every table, instant and receivable with work, having fewer than `batch` live receivables ahead is
   * what decides the scan, exactly when the horizon fits a 64-bit duration.
   */
  lemma ScanHidesNoWorkExactly(ladder: seq<Step>, batch: nat)
    requires batch >= 1
    ensures (forall table, now, id, sent :: WorkScanned(table, ladder, now, batch, id, sent))
            <==> 1 - Earliest(ladder) <= MAX_DAYS
  {
    hide HasWork, Ahead, Scan, Live;
    if 1 - Earliest(ladder) <= MAX_DAYS {
      forall table: Table, now, id, sent
        ensures WorkScanned(table, ladder, now, batch, id, sent)
      {
        if id in table && table[id].live && HasWork(ladder, now, table[id].due, sent) {
          WorkIsNear(ladder, now, table[id].due, sent);
          ScannedExactly(table, now + Wrap64((1 - Earliest(ladder)) * DAY), batch, id);
        }
      }
    } else {
      var due := FarWork(ladder);
      var table := map["r" := Row("o", "c", due, true)];
      ScannedExactly(table, Wrap64((1 - Earliest(ladder)) * DAY), batch, "r");
      AloneIsFirst(table, "r");
      assert !WorkScanned(table, ladder, 0, batch, "r", {});
    }
  }

  lemma AloneIsFirst(table: Table, id: string)
    requires table.Keys == {id}
    ensures Ahead(table, id) == {}
  {
    BeforeIsTotal();
  }
}
