// The coverage table of the SQL history store: how a write meets the row already
// stored for its key, and what is left after any sequence of writes.
module Coverage {
  import opened Wrappers
  import opened Bars

  const COVERED: string := "covered"

  datatype Key = Key(dataset: string, series: Series, tradeDate: int)

  datatype Row = Row(status: string, rowCount: int, checksum: string, source: string,
                     lastFetch: Option<int>, lastError: string, updatedAt: int)

  datatype Dialect = Postgres | MySQL | SQLite

  function Later(a: Option<int>, b: Option<int>): Option<int> {
    if a.None? then b
    else if b.None? then a
    else if b.value > a.value then b else a
  }

  // The conflict clause of Postgres and SQLite: every column is computed from the
  // row as it was.
  function MergeRow(row: Row, incoming: Row): Row {
    var sticks := row.status == COVERED && incoming.status != COVERED;
    Row(if sticks then row.status else incoming.status,
        if row.rowCount >= incoming.rowCount then row.rowCount else incoming.rowCount,
        if sticks || incoming.checksum == "" then row.checksum else incoming.checksum,
        if incoming.source == "" then row.source else incoming.source,
        Later(row.lastFetch, incoming.lastFetch),
        if incoming.status == COVERED then "" else incoming.lastError,
        incoming.updatedAt)
  }

  // The conflict clause of MySQL assigns column by column, each assignment seeing
  // the columns already assigned; the row comes out the same.
  method AssignColumns(row: Row, incoming: Row) returns (r: Row)
    ensures r == MergeRow(row, incoming)
  {
    r := row;
    r := r.(status := if r.status == COVERED && incoming.status != COVERED then r.status else incoming.status);
    r := r.(rowCount := if r.rowCount >= incoming.rowCount then r.rowCount else incoming.rowCount);
    r := r.(checksum := if r.status == COVERED && incoming.status != COVERED then r.checksum
                        else if incoming.checksum == "" then r.checksum else incoming.checksum);
    r := r.(source := if incoming.source == "" then r.source else incoming.source);
    r := r.(lastFetch := Later(r.lastFetch, incoming.lastFetch));
    r := r.(lastError := if incoming.status == COVERED then "" else incoming.lastError);
    r := r.(updatedAt := incoming.updatedAt);
  }

  // A first write is stored as it is.
  function Put(stored: Option<Row>, incoming: Row): Row {
    match stored
    case None => incoming
    case Some(row) => MergeRow(row, incoming)
  }

  // --- PutCoverage

  datatype Write = Write(key: Key, row: Row, now: int)

  function Defaulted(w: Write): Row {
    var status := if w.row.status == "" then COVERED else w.row.status;
    w.row.(status := status,
           lastFetch := if w.row.lastFetch.None? && status == COVERED then Some(w.now) else w.row.lastFetch,
           updatedAt := w.now)
  }

  function KeyOf(w: Write): Key {
    w.key.(tradeDate := Midnight(w.key.tradeDate))
  }

  function Stored(rows: map<Key, Row>, k: Key): Option<Row> {
    if k in rows then Some(rows[k]) else None
  }

  function PutRow(rows: map<Key, Row>, w: Write): map<Key, Row> {
    if !ValidSymbol(w.key.series.symbol) then rows
    else rows[KeyOf(w) := Put(Stored(rows, KeyOf(w)), Defaulted(w))]
  }

  // The in-memory store does not merge: a write replaces the row, and only an empty
  // status is filled in.
  function Replace(rows: map<Key, Row>, k: Key, row: Row): map<Key, Row> {
    if !ValidSymbol(k.series.symbol) then rows
    else rows[k.(tradeDate := Midnight(k.tradeDate)) := row.(status := if row.status == "" then COVERED else row.status)]
  }

  // Unless the symbol is incomplete, the row of the day is as given, but for an empty
  // status, which is covered; so a covered day stays so exactly if the status says so or
  // is empty. No other row changes.
  lemma ReplaceTouches(rows: map<Key, Row>, k: Key, row: Row) returns (day: Key)
    ensures k.series.symbol.market == "" || k.series.symbol.code == "" ==> Replace(rows, k, row) == rows
    ensures day.dataset == k.dataset && day.series == k.series && day.tradeDate % 86_400_000_000_000 == 0
    ensures day.tradeDate <= k.tradeDate < day.tradeDate + 86_400_000_000_000
    ensures k.series.symbol.market != "" && k.series.symbol.code != "" ==>
              && day in Replace(rows, k, row)
              && (forall o | o != day :: (o in Replace(rows, k, row) <==> o in rows)
                                         && (o in rows ==> Replace(rows, k, row)[o] == rows[o]))
              && var r := Replace(rows, k, row)[day];
                 && r.(status := row.status) == row
                 && (r.status == "covered" <==> row.status == "covered" || row.status == "")
                 && (row.status != "" ==> r.status == row.status)
  {
    var d := MidnightMeaning(k.tradeDate);
    day := k.(tradeDate := Midnight(k.tradeDate));
  }

  class CoverageTable {
    var rows: map<Key, Row>
    const dialect: Dialect

    constructor (dialect: Dialect)
      ensures rows == map[] && this.dialect == dialect
    {
      rows := map[];
      this.dialect := dialect;
    }

    // Whatever the dialect, the table ends up the same.
    method PutCoverage(w: Write) returns (err: Option<Error>)
      modifies this
      ensures rows == PutRow(old(rows), w)
      ensures err == if ValidSymbol(w.key.series.symbol) then None else Some(InvalidRequest)
    {
      if !ValidSymbol(w.key.series.symbol) {
        return Some(InvalidRequest);
      }
      var key := w.key.(tradeDate := Midnight(w.key.tradeDate));
      var row := w.row;
      if row.status == "" {
        row := row.(status := COVERED);
      }
      if row.lastFetch.None? && row.status == COVERED {
        row := row.(lastFetch := Some(w.now));
      }
      row := row.(updatedAt := w.now);
      if key in rows {
        match dialect {
          case MySQL =>
            var merged := AssignColumns(rows[key], row);
            rows := rows[key := merged];
          case _ =>
            rows := rows[key := MergeRow(rows[key], row)];
        }
      } else {
        rows := rows[key := row];
      }
      err := None;
    }
  }

  // A write is for a whole day.
  lemma KeyMeaning(w: Write)
    ensures KeyOf(w).dataset == w.key.dataset && KeyOf(w).series == w.key.series
    ensures KeyOf(w).tradeDate % 86_400_000_000_000 == 0
    ensures KeyOf(w).tradeDate <= w.key.tradeDate < KeyOf(w).tradeDate + 86_400_000_000_000
  {
    var day := MidnightMeaning(w.key.tradeDate);
  }

  // What is written: a missing status is covered, a covered write without a fetch time
  // was fetched now, and the rest is as given.
  lemma WrittenMeaning(w: Write)
    ensures var r := Defaulted(w);
            && r.status == (if w.row.status == "" then "covered" else w.row.status)
            && r.lastFetch == (if w.row.lastFetch.None? && (w.row.status == "" || w.row.status == "covered")
                               then Some(w.now) else w.row.lastFetch)
            && r.rowCount == w.row.rowCount && r.checksum == w.row.checksum && r.source == w.row.source
            && r.lastError == w.row.lastError && r.updatedAt == w.now
  {
  }

  // A write is refused exactly if its symbol is incomplete; otherwise it changes the row
  // of its key alone, which a first write sets as written.
  lemma WriteTouches(rows: map<Key, Row>, w: Write)
    ensures w.key.series.symbol.market == "" || w.key.series.symbol.code == "" ==> PutRow(rows, w) == rows
    ensures w.key.series.symbol.market != "" && w.key.series.symbol.code != "" ==>
              && KeyOf(w) in PutRow(rows, w)
              && (forall k | k != KeyOf(w) :: (k in PutRow(rows, w) <==> k in rows)
                                              && (k in rows ==> PutRow(rows, w)[k] == rows[k]))
              && (KeyOf(w) !in rows ==> PutRow(rows, w)[KeyOf(w)] == Defaulted(w))
  {
  }

  // --- One row after a sequence of writes

  function Fold(ws: seq<Row>): Row
    requires ws != []
  {
    var n := |ws| - 1;
    if n == 0 then ws[0] else MergeRow(Fold(ws[..n]), ws[n])
  }

  predicate AnyCovered(ws: seq<Row>) {
    exists w :: w in ws && w.status == COVERED
  }

  ghost predicate IsMaximum(ws: seq<Row>, m: int) {
    && (exists w :: w in ws && w.rowCount == m)
    && forall w | w in ws :: w.rowCount <= m
  }

  ghost predicate IsLatest(ws: seq<Row>, t: Option<int>) {
    && (t.Some? ==> exists w :: w in ws && w.lastFetch == t)
    && forall w | w in ws && w.lastFetch.Some? :: t.Some? && w.lastFetch.value <= t.value
  }

  // The checksums that count: of covered writes, and of writes made while nothing
  // was covered yet.
  function CountedChecksums(ws: seq<Row>): seq<string> {
    if ws == [] then []
    else
      var n := |ws| - 1;
      var rest := CountedChecksums(ws[..n]);
      if ws[n].status == COVERED || !AnyCovered(ws[..n]) then rest + [ws[n].checksum] else rest
  }

  function Sources(ws: seq<Row>): seq<string> {
    seq(|ws|, i requires 0 <= i < |ws| => ws[i].source)
  }

  // The last non-empty text, if any.
  function LastNonEmpty(texts: seq<string>): string {
    if texts == [] then ""
    else if texts[|texts| - 1] != "" then texts[|texts| - 1]
    else LastNonEmpty(texts[..|texts| - 1])
  }

  // What a row says about all the writes made to it: it is covered if any of them
  // was, and holds the largest row count and the latest fetch time.
  lemma {:induction false} FoldMeaning(ws: seq<Row>)
    requires ws != []
    ensures Fold(ws).status == if AnyCovered(ws) then COVERED else ws[|ws| - 1].status
    ensures IsMaximum(ws, Fold(ws).rowCount)
    ensures IsLatest(ws, Fold(ws).lastFetch)
  {
    var n := |ws| - 1;
    assert ws == ws[..n] + [ws[n]];
    assert ws[n] in ws;
    if n > 0 {
      FoldMeaning(ws[..n]);
    }
  }

  // Its texts: the last non-empty checksum that counts, the last non-empty source,
  // and the error of the last write.
  lemma {:induction false} FoldTexts(ws: seq<Row>)
    requires ws != []
    ensures Fold(ws).checksum == LastNonEmpty(CountedChecksums(ws))
    ensures Fold(ws).source == LastNonEmpty(Sources(ws))
    ensures Fold(ws).lastError == if |ws| > 1 && ws[|ws| - 1].status == COVERED then "" else ws[|ws| - 1].lastError
    ensures Fold(ws).updatedAt == ws[|ws| - 1].updatedAt
  {
    var n := |ws| - 1;
    assert ws[..0] == [];
    assert Sources(ws)[..n] == Sources(ws[..n]);
    if n == 0 {
      assert CountedChecksums(ws) == [ws[0].checksum];
    } else {
      FoldTexts(ws[..n]);
      FoldMeaning(ws[..n]);
      CoveredRow(ws[..n]);
      var rest := CountedChecksums(ws[..n]);
      assert (rest + [ws[n].checksum])[..|rest|] == rest;
    }
  }

  lemma CoveredRow(ws: seq<Row>)
    requires ws != []
    ensures Fold(ws).status == COVERED <==> AnyCovered(ws)
  {
    FoldMeaning(ws);
    assert ws[|ws| - 1] in ws;
  }

  // The order of the writes, and repetitions among them, do not matter for these.
  lemma OrderDoesNotMatter(a: seq<Row>, b: seq<Row>)
    requires a != [] && b != [] && forall w :: w in a <==> w in b
    ensures Fold(a).status == COVERED <==> Fold(b).status == COVERED
    ensures Fold(a).rowCount == Fold(b).rowCount
    ensures Fold(a).lastFetch == Fold(b).lastFetch
  {
    CoveredRow(a);
    CoveredRow(b);
    assert Fold(a).rowCount == Fold(b).rowCount && Fold(a).lastFetch == Fold(b).lastFetch by {
      FoldMeaning(a);
      FoldMeaning(b);
      SameMaximum(a, b, Fold(a).rowCount, Fold(b).rowCount);
      SameLatest(a, b, Fold(a).lastFetch, Fold(b).lastFetch);
    }
  }

  lemma SameMaximum(a: seq<Row>, b: seq<Row>, m: int, n: int)
    requires IsMaximum(a, m) && IsMaximum(b, n) && forall w :: w in a <==> w in b
    ensures m == n
  {
    var w :| w in a && w.rowCount == m;
    var x :| x in b && x.rowCount == n;
    assert w in b && x in a;
  }

  lemma SameLatest(a: seq<Row>, b: seq<Row>, t: Option<int>, u: Option<int>)
    requires IsLatest(a, t) && IsLatest(b, u) && forall w :: w in a <==> w in b
    ensures t == u
  {
    if t.Some? {
      var w :| w in a && w.lastFetch == t;
      assert w in b;
    }
    if u.Some? {
      var x :| x in b && x.lastFetch == u;
      assert x in a;
    }
  }

  // --- Making a write again

  // A covered write that leaves its fetch time to the clock moves the stored time on.
  predicate MovesFetchTime(row: Row, w: Write) {
    && w.row.lastFetch.None? && Defaulted(w).status == COVERED
    && row.lastFetch.Some? && row.lastFetch.value < w.now
  }

  // Making the last write to a key again changes nothing but the update time, except
  // in two cases: a first write that is covered and carries an error text keeps the
  // text when it is inserted and loses it when it is repeated; and a covered write
  // that leaves its fetch time to the clock moves it on, if the clock has passed the
  // time stored.
  lemma RepeatedWrite(rows: map<Key, Row>, w: Write, later: int)
    requires ValidSymbol(w.key.series.symbol)
    ensures var once := PutRow(rows, w);
            var k := KeyOf(w);
            PutRow(once, w.(now := later)) == once[k := once[k].(updatedAt := later)]
            <==> !(k !in rows && Defaulted(w).status == COVERED && w.row.lastError != "")
                 && !MovesFetchTime(once[k], w.(now := later))
  {
    var k := KeyOf(w);
    var once := PutRow(rows, w);
    assert PutRow(once, w.(now := later))[k] == MergeRow(once[k], Defaulted(w.(now := later)));
    assert once[k := once[k].(updatedAt := later)][k] == once[k].(updatedAt := later);
  }

  // --- The whole table over a run

  function Run(ws: seq<Write>): map<Key, Row> {
    if ws == [] then map[] else PutRow(Run(ws[..|ws| - 1]), ws[|ws| - 1])
  }

  // The accepted writes to one key, as they reach the table.
  function WritesTo(ws: seq<Write>, k: Key): seq<Row> {
    if ws == [] then []
    else
      var n := |ws| - 1;
      var rest := WritesTo(ws[..n], k);
      if ValidSymbol(ws[n].key.series.symbol) && KeyOf(ws[n]) == k then rest + [Defaulted(ws[n])] else rest
  }

  // The keys do not interfere: each row is the fold of its own writes.
  lemma {:induction false} RunIsFoldPerKey(ws: seq<Write>, k: Key)
    ensures k in Run(ws) <==> WritesTo(ws, k) != []
    ensures k in Run(ws) ==> Run(ws)[k] == Fold(WritesTo(ws, k))
  {
    if ws != [] {
      var n := |ws| - 1;
      RunIsFoldPerKey(ws[..n], k);
      var rest := WritesTo(ws[..n], k);
      assert (rest + [Defaulted(ws[n])])[..|rest|] == rest;
    }
  }

  // A write leaves the status, the two texts and the error of the row as they are.
  predicate LeavesTexts(row: Row, incoming: Row) {
    && (row.status == COVERED || incoming.status == row.status)
    && (incoming.checksum in ["", row.checksum] || (row.status == COVERED && incoming.status != COVERED))
    && incoming.source in ["", row.source]
    && row.lastError == if incoming.status == COVERED then "" else incoming.lastError
  }

  lemma {:induction false} WrittenBefore(ws: seq<Write>, i: nat)
    requires i < |ws| && ValidSymbol(ws[i].key.series.symbol)
    ensures Defaulted(ws[i]) in WritesTo(ws, KeyOf(ws[i]))
  {
    var n := |ws| - 1;
    if i < n {
      WrittenBefore(ws[..n], i);
    }
  }

  // A row that already has a write's row count and explicit fetch time.
  predicate HasNumbers(row: Row, w: Write) {
    && w.row.rowCount <= row.rowCount
    && (w.row.lastFetch.Some? ==> row.lastFetch.Some? && w.row.lastFetch.value <= row.lastFetch.value)
    && (Defaulted(w).status == COVERED ==> row.lastFetch.Some?)
  }

  lemma MergeLeaves(row: Row, w: Write)
    requires HasNumbers(row, w)
    ensures MergeRow(row, Defaulted(w)).rowCount == row.rowCount
    ensures MergeRow(row, Defaulted(w)) == row.(updatedAt := w.now)
            <==> LeavesTexts(row, Defaulted(w)) && !MovesFetchTime(row, w)
  {
  }

  lemma HasItsNumbers(ws: seq<Write>, i: nat)
    requires i < |ws| && ValidSymbol(ws[i].key.series.symbol)
    ensures KeyOf(ws[i]) in Run(ws) && HasNumbers(Run(ws)[KeyOf(ws[i])], ws[i])
  {
    WrittenBefore(ws, i);
    RunIsFoldPerKey(ws, KeyOf(ws[i]));
    FoldMeaning(WritesTo(ws, KeyOf(ws[i])));
    assert Defaulted(ws[i]).rowCount <= Run(ws)[KeyOf(ws[i])].rowCount;
  }

  // Making any write of a run again never changes the row count, and changes nothing
  // but the update time exactly if it leaves the texts of the row as they are and
  // does not move the fetch time.
  lemma ReplayedWrite(ws: seq<Write>, i: nat, later: int)
    requires i < |ws| && ValidSymbol(ws[i].key.series.symbol)
    ensures var k := KeyOf(ws[i]);
            var again := ws[i].(now := later);
            && k in Run(ws)
            && PutRow(Run(ws), again)[k].rowCount == Run(ws)[k].rowCount
            && (PutRow(Run(ws), again) == Run(ws)[k := Run(ws)[k].(updatedAt := later)]
                <==> LeavesTexts(Run(ws)[k], Defaulted(again)) && !MovesFetchTime(Run(ws)[k], again))
  {
    var k := KeyOf(ws[i]);
    var again := ws[i].(now := later);
    HasItsNumbers(ws, i);
    MergeLeaves(Run(ws)[k], again);
    SameUpdate(Run(ws), k, MergeRow(Run(ws)[k], Defaulted(again)), Run(ws)[k].(updatedAt := later));
  }

  lemma SameUpdate(rows: map<Key, Row>, k: Key, a: Row, b: Row)
    ensures rows[k := a] == rows[k := b] <==> a == b
  {
    assert rows[k := a][k] == a && rows[k := b][k] == b;
  }

  // Once a key is covered, no later write of any run takes it back or lowers its
  // row count or fetch time; and a covered row always has a fetch time.
  lemma {:induction false} CoverageSticks(ws: seq<Write>, more: seq<Write>, k: Key)
    requires k in Run(ws) && Run(ws)[k].status == COVERED
    ensures k in Run(ws + more) && Run(ws + more)[k].status == COVERED
    ensures Run(ws)[k].rowCount <= Run(ws + more)[k].rowCount
    ensures Run(ws)[k].lastFetch.Some? && Run(ws + more)[k].lastFetch.Some?
    ensures Run(ws)[k].lastFetch.value <= Run(ws + more)[k].lastFetch.value
  {
    CoveredHasFetchTime(ws, k);
    if more == [] {
      assert ws + more == ws;
    } else {
      CoverageSticks(ws, more[..|more| - 1], k);
      assert (ws + more)[..|ws + more| - 1] == ws + more[..|more| - 1];
    }
  }

  lemma {:induction false} CoveredHasFetchTime(ws: seq<Write>, k: Key)
    requires k in Run(ws) && Run(ws)[k].status == COVERED
    ensures Run(ws)[k].lastFetch.Some?
  {
    var n := |ws| - 1;
    if k in Run(ws[..n]) && Run(ws[..n])[k].status == COVERED {
      CoveredHasFetchTime(ws[..n], k);
    }
  }
}
