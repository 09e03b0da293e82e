/**
 * ReviewWindow of recording.py without its widgets: a snapshot of the
 * ledger rows, a cursor over it, playback of the current row's wav file and
 * deletion of the current row, which writes the snapshot back into the main
 * window and rewrites the ledger file.
 */
module Review {

  import opened Basics
  import opened Ledger
  import opened Recorder

  /** `list.pop(k)`: the list without its k-th element, the others in order. */
  function RemoveAt<T>(s: seq<T>, k: nat): (r: seq<T>)
    requires k < |s|
    ensures |r| == |s| - 1
    ensures forall j :: 0 <= j < k ==> r[j] == s[j]
    ensures forall j :: k <= j < |r| ==> r[j] == s[j + 1]
    ensures multiset(r) + multiset{s[k]} == multiset(s)
  {
    assert s == s[..k] + [s[k]] + s[k + 1..];
    s[..k] + s[k + 1..]
  }

  /**
   * Where the cursor goes after a pop at `index` left `len` rows: it stays,
   * now showing the next row, unless it is past the end, when it steps back.
   */
  function ClampAfterPop(index: nat, len: nat): (i: nat)
    requires index <= len
    ensures i < len || i == 0
    ensures index < len ==> i == index
    ensures index == len && len > 0 ==> i == len - 1
  {
    if index >= len && index > 0 then index - 1 else index
  }

  datatype PlayOutcome = NothingToPlay | Played(samples: seq<real>) | ReadFailed

  datatype DeleteOutcome = NoRow | Declined | RemoveFailed | Deleted(row: Row) | LedgerNotWritten(row: Row)

  class ReviewWindow {
    const app: App
    var rows: seq<Row>
    var index: nat

    /** The window works on a copy of the ledger taken when it opens, from its first row. */
    constructor(app: App)
      ensures this.app == app && rows == app.metadata && index == 0
    {
      this.app := app;
      rows := app.metadata;
      index := 0;
    }

    /** The cursor is on a row, or at 0 when there is none. */
    predicate OnRow()
      reads this
    {
      index < |rows| || index == 0
    }

    /** `next_sentence` ("Keep"): forward unless on the last row. */
    method Next()
      modifies this`index
      ensures old(index) + 1 < |rows| ==> index == old(index) + 1
      ensures old(index) + 1 >= |rows| ==> index == old(index)
      ensures old(OnRow()) ==> OnRow()
    {
      if index + 1 < |rows| {
        index := index + 1;
      }
    }

    /** `previous_sentence`: back unless on the first row. */
    method Previous()
      modifies this`index
      ensures old(index) > 0 ==> index == old(index) - 1
      ensures old(index) == 0 ==> index == 0
      ensures old(OnRow()) ==> OnRow()
    {
      if index > 0 {
        index := index - 1;
      }
    }

    /**
     * `play_audio`: the samples of the current row's wav file, read with
     * success `readOk`; nothing without a current row or without its file.
     * Nothing is changed.
     */
    method Play(readOk: bool) returns (o: PlayOutcome)
      ensures index >= |rows| ==> o == NothingToPlay
      ensures index < |rows| && rows[index].file !in app.disk.wavs ==> o == NothingToPlay
      ensures index < |rows| && rows[index].file in app.disk.wavs ==>
        o == if readOk then Played(app.disk.wavs[rows[index].file]) else ReadFailed
    {
      if index >= |rows| {
        return NothingToPlay;
      }
      var file := rows[index].file;
      if file !in app.disk.wavs {
        return NothingToPlay;
      }
      if !readOk {
        return ReadFailed;
      }
      return Played(app.disk.wavs[file]);
    }

    /**
     * `delete_audio`: after confirmation, the current row's wav file is
     * removed if present (a failed removal changes nothing), the row is
     * popped, the main window's ledger becomes a copy of this window's rows,
     * the ledger file is rewritten sorted, and the cursor is clamped. A failed
     * ledger write leaves the cursor where it was.
     */
    method Delete(confirmed: bool, removeOk: bool, ledgerOk: bool) returns (o: DeleteOutcome)
      modifies this`rows, this`index, app`metadata, app.disk`wavs, app.disk`ledger
      ensures old(index) >= |old(rows)| ==> o == NoRow
      ensures old(index) < |old(rows)| && !confirmed ==> o == Declined
      ensures old(index) < |old(rows)| && confirmed && old(rows)[old(index)].file in old(app.disk.wavs) && !removeOk ==>
        o == RemoveFailed
      ensures old(index) < |old(rows)| && confirmed && (old(rows)[old(index)].file !in old(app.disk.wavs) || removeOk) ==>
        if ledgerOk then o.Deleted? else o.LedgerNotWritten?
      ensures o.NoRow? || o.Declined? || o.RemoveFailed? ==>
        rows == old(rows) && index == old(index) && app.metadata == old(app.metadata) &&
        app.disk.wavs == old(app.disk.wavs) && app.disk.ledger == old(app.disk.ledger)
      ensures o.Deleted? || o.LedgerNotWritten? ==>
        old(index) < |old(rows)| && confirmed && o.row == old(rows)[old(index)] &&
        rows == RemoveAt(old(rows), old(index)) && app.metadata == rows &&
        app.disk.wavs == old(app.disk.wavs) - {o.row.file}
      ensures o.Deleted? ==> ledgerOk && app.disk.ledger == Some(LedgerText(rows)) && index == ClampAfterPop(old(index), |rows|)
      ensures o.LedgerNotWritten? ==> !ledgerOk && app.disk.ledger == old(app.disk.ledger) && index == old(index)
    {
      if index >= |rows| {
        return NoRow;
      }
      var row := rows[index];
      if !confirmed {
        return Declined;
      }
      if row.file in app.disk.wavs {
        if !removeOk {
          return RemoveFailed;
        }
        app.disk.wavs := app.disk.wavs - {row.file};
      }
      rows := RemoveAt(rows, index);
      app.metadata := rows;
      if !ledgerOk {
        return LedgerNotWritten(row);
      }
      app.disk.ledger := Some(LedgerText(rows));
      index := ClampAfterPop(index, |rows|);
      return Deleted(row);
    }
  }

  /**
   * A delete takes out exactly one row for its file: the rows of every other
   * file are kept, in their order.
   */
  lemma DeleteRemovesOne(rows: seq<Row>, k: nat, f: string)
    requires k < |rows|
    ensures WithFile(RemoveAt(rows, k), f) ==
      if rows[k].file == f then WithFile(rows[..k], f) + WithFile(rows[k + 1..], f) else WithFile(rows, f)
  {
    assert rows == rows[..k] + [rows[k]] + rows[k + 1..];
    WithFileAppend(rows[..k] + [rows[k]], rows[k + 1..], f);
    WithFileAppend(rows[..k], [rows[k]], f);
    WithFileAppend(rows[..k], rows[k + 1..], f);
  }

  /** The ledger rewritten after a delete reads back as the remaining rows, sorted. */
  lemma DeleteKeepsLedgerReadable(rows: seq<Row>, k: nat)
    requires k < |rows| && AllWellFormed(rows)
    ensures AllWellFormed(RemoveAt(rows, k))
    ensures Parse(LedgerText(RemoveAt(rows, k))) == SortByFile(RemoveAt(rows, k))
  {
    var r := RemoveAt(rows, k);
    assert forall j :: 0 <= j < |r| ==> r[j] == rows[if j < k then j else j + 1];
    LedgerRoundTrip(r);
  }
}
