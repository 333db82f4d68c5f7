/**
 The cursor backfill of source locales (scripts/l10n/backfill-source-item-locale.ts).  Its
 writes remove rows from its own filter, so a page is always queried behind the last id
 seen.  No other writer is active.
 */
module LocaleBackfill {
  import opened Wrappers
  import opened Keyset
  import opened Sequences
  import opened Histogram

  type Code = string
  type Locale = Option<string>

  datatype Row = Row(id: Id, code: Code, name: Option<string>, locale: Locale, deleted: bool)

  /** The registry lookup and the command's flags. */
  datatype Options = Options(resolve: (Code, Option<string>) -> Locale, apply: bool, reResolve: bool)

  datatype CodeStats = CodeStats(total: nat, before: map<string, nat>, after: map<string, nat>, changed: nat)

  function RowId(r: Row): Id { r.id }

  function NextLocale(r: Row, o: Options): Locale {
    o.resolve(r.code, r.name)
  }

  /** Live rows without a locale or with the legacy literal; with re-resolve every live row. */
  function Target(o: Options): Row -> bool {
    (r: Row) => !r.deleted && (o.reResolve || r.locale == None || r.locale == Some("unknown"))
  }

  function BucketKey(l: Locale): string {
    match l
    case None => "null"
    case Some(s) => s
  }

  predicate Changes(r: Row, o: Options) {
    r.locale != NextLocale(r, o)
  }

  // ---------------------------------------------------------------------
  // What a scan reports
  // ---------------------------------------------------------------------

  function CodeRows(rows: seq<Row>, c: Code): seq<Row> {
    if rows == [] then []
    else CodeRows(rows[..|rows| - 1], c) + (if rows[|rows| - 1].code == c then [rows[|rows| - 1]] else [])
  }

  function Before(rows: seq<Row>): seq<string> {
    if rows == [] then [] else Before(rows[..|rows| - 1]) + [BucketKey(rows[|rows| - 1].locale)]
  }

  function After(rows: seq<Row>, o: Options): seq<string> {
    if rows == [] then [] else After(rows[..|rows| - 1], o) + [BucketKey(NextLocale(rows[|rows| - 1], o))]
  }

  function ChangedCount(rows: seq<Row>, o: Options): nat {
    if rows == [] then 0 else ChangedCount(rows[..|rows| - 1], o) + (if Changes(rows[|rows| - 1], o) then 1 else 0)
  }

  function Codes(rows: seq<Row>): seq<Code> {
    if rows == [] then [] else Codes(rows[..|rows| - 1]) + [rows[|rows| - 1].code]
  }

  ghost predicate StatsOk(s: CodeStats, rows: seq<Row>, o: Options) {
    && s.total == |rows| && s.changed == ChangedCount(rows, o)
    && Tallies(s.before, Before(rows)) && Tallies(s.after, After(rows, o))
  }

  ghost predicate CodeOk(byCode: map<Code, CodeStats>, rows: seq<Row>, o: Options, c: Code) {
    && (c in byCode <==> CodeRows(rows, c) != [])
    && (c in byCode ==> StatsOk(byCode[c], CodeRows(rows, c), o))
  }

  /** The report of a scan that has visited `rows`. */
  ghost predicate ReportOk(byCode: map<Code, CodeStats>, scanned: nat, changed: nat, rows: seq<Row>, o: Options) {
    scanned == |rows| && changed == ChangedCount(rows, o) && forall c :: CodeOk(byCode, rows, o, c)
  }

  function EmptyStats(): CodeStats {
    CodeStats(0, map[], map[], 0)
  }

  function AddRow(s: CodeStats, r: Row, o: Options): CodeStats {
    CodeStats(s.total + 1, Bump(s.before, BucketKey(r.locale)), Bump(s.after, BucketKey(NextLocale(r, o))),
              s.changed + (if Changes(r, o) then 1 else 0))
  }

  lemma {:induction false} Snoc(rows: seq<Row>, r: Row, o: Options, c: Code)
    ensures Before(rows + [r]) == Before(rows) + [BucketKey(r.locale)]
    ensures After(rows + [r], o) == After(rows, o) + [BucketKey(NextLocale(r, o))]
    ensures ChangedCount(rows + [r], o) == ChangedCount(rows, o) + (if Changes(r, o) then 1 else 0)
    ensures CodeRows(rows + [r], c) == if r.code == c then CodeRows(rows, c) + [r] else CodeRows(rows, c)
  {
    assert (rows + [r])[..|rows|] == rows;
  }

  lemma AddRowOk(s: CodeStats, rows: seq<Row>, r: Row, o: Options)
    requires StatsOk(s, rows, o)
    ensures StatsOk(AddRow(s, r, o), rows + [r], o)
  {
    Snoc(rows, r, o, "");
    BumpTallies(s.before, Before(rows), BucketKey(r.locale));
    BumpTallies(s.after, After(rows, o), BucketKey(NextLocale(r, o)));
  }

  lemma ReportStep(byCode: map<Code, CodeStats>, scanned: nat, changed: nat, rows: seq<Row>, r: Row, o: Options)
    requires ReportOk(byCode, scanned, changed, rows, o)
    ensures var s := if r.code in byCode then byCode[r.code] else EmptyStats();
            ReportOk(byCode[r.code := AddRow(s, r, o)], scanned + 1, changed + (if Changes(r, o) then 1 else 0),
                rows + [r], o)
  {
    var s := if r.code in byCode then byCode[r.code] else EmptyStats();
    var next := byCode[r.code := AddRow(s, r, o)];
    assert CodeOk(byCode, rows, o, r.code);
    AddRowOk(s, CodeRows(rows, r.code), r, o);
    forall c ensures CodeOk(next, rows + [r], o, c) {
      assert CodeOk(byCode, rows, o, c);
      Snoc(rows, r, o, c);
    }
    Snoc(rows, r, o, "");
  }

  // ---------------------------------------------------------------------
  // What a report adds up to
  // ---------------------------------------------------------------------

  function TotalOver(byCode: map<Code, CodeStats>, cs: seq<Code>): nat {
    if cs == [] then 0
    else TotalOver(byCode, cs[..|cs| - 1]) + (if cs[|cs| - 1] in byCode then byCode[cs[|cs| - 1]].total else 0)
  }

  lemma {:induction false} CodeRowsCount(rows: seq<Row>, c: Code)
    ensures |CodeRows(rows, c)| == Count(Codes(rows), c)
    ensures |Codes(rows)| == |rows|
  {
    if rows != [] {
      CodeRowsCount(rows[..|rows| - 1], c);
    }
  }

  lemma {:induction false} TotalsAreCounts(byCode: map<Code, CodeStats>, scanned: nat, changed: nat,
      rows: seq<Row>, o: Options, cs: seq<Code>)
    requires ReportOk(byCode, scanned, changed, rows, o)
    ensures TotalOver(byCode, cs) == CountOver(Codes(rows), cs)
  {
    if cs != [] {
      var c := cs[|cs| - 1];
      TotalsAreCounts(byCode, scanned, changed, rows, o, cs[..|cs| - 1]);
      assert CodeOk(byCode, rows, o, c);
      CodeRowsCount(rows, c);
    }
  }

  lemma {:induction false} CodesListed(rows: seq<Row>, i: nat)
    requires i < |rows|
    ensures i < |Codes(rows)| && Codes(rows)[i] == rows[i].code && CodeRows(rows, rows[i].code) != []
  {
    if i < |rows| - 1 {
      CodesListed(rows[..|rows| - 1], i);
    }
    CodeRowsCount(rows, "");
    CodeRowsCount(rows[..|rows| - 1], "");
  }

  /** Per-code totals, listed once per code, sum to the rows scanned; and both histograms of a code sum to its total. */
  lemma {:induction false} ReportAddsUp(byCode: map<Code, CodeStats>, scanned: nat, changed: nat, rows: seq<Row>,
      o: Options, cs: seq<Code>, c: Code, ks: seq<string>)
    requires ReportOk(byCode, scanned, changed, rows, o)
    requires Distinct(cs) && forall x :: x in byCode ==> x in cs
    ensures TotalOver(byCode, cs) == scanned
    ensures c in byCode && Distinct(ks) && (forall k :: k in byCode[c].before ==> k in ks) ==>
              Total(byCode[c].before, ks) == byCode[c].total
    ensures c in byCode && Distinct(ks) && (forall k :: k in byCode[c].after ==> k in ks) ==>
              Total(byCode[c].after, ks) == byCode[c].total
  {
    TotalsAreCounts(byCode, scanned, changed, rows, o, cs);
    CodeRowsCount(rows, "");
    forall i | 0 <= i < |Codes(rows)| ensures Codes(rows)[i] in cs {
      CodesListed(rows, i);
      assert CodeOk(byCode, rows, o, rows[i].code);
    }
    CountOverAll(Codes(rows), cs);
    if c in byCode {
      assert CodeOk(byCode, rows, o, c);
      var mine := CodeRows(rows, c);
      ValuesLength(mine, o);
      if Distinct(ks) && forall k :: k in byCode[c].before ==> k in ks {
        BucketsSum(byCode[c].before, Before(mine), ks);
      }
      if Distinct(ks) && forall k :: k in byCode[c].after ==> k in ks {
        BucketsSum(byCode[c].after, After(mine, o), ks);
      }
    }
  }

  lemma {:induction false} ValuesLength(rows: seq<Row>, o: Options)
    ensures |Before(rows)| == |rows| == |After(rows, o)|
  {
    if rows != [] {
      ValuesLength(rows[..|rows| - 1], o);
    }
  }

  // ---------------------------------------------------------------------
  // The table while the scan runs
  // ---------------------------------------------------------------------

  /** Row `r` as the scan leaves it once it was visited. */
  function Written(r: Row, o: Options): Row {
    if o.apply then r.(locale := NextLocale(r, o)) else r
  }

  predicate Visited(r: Row, matching: seq<Row>, n: nat)
    requires n <= |matching|
  {
    exists i :: 0 <= i < n && matching[i].id == r.id
  }

  /** The table after the first `n` targets: those are written, everything else is as it was. */
  predicate TableAt(table: seq<Row>, start: seq<Row>, matching: seq<Row>, n: nat, o: Options)
    requires n <= |matching|
  {
    |table| == |start| && forall i :: 0 <= i < |start| ==>
      table[i] == if Visited(start[i], matching, n) then Written(start[i], o) else start[i]
  }

  /** updateMany({ where: { id, sourceLocale }, data: { sourceLocale } }) */
  function Updated(table: seq<Row>, id: Id, expected: Locale, next: Locale): seq<Row> {
    seq(|table|, i requires 0 <= i < |table| =>
      if table[i].id == id && table[i].locale == expected then table[i].(locale := next) else table[i])
  }

  /** The scan's fixed facts: what it started from and which rows it is to visit. */
  ghost predicate Setting(start: seq<Row>, matching: seq<Row>, o: Options) {
    Ascending(start, RowId) && matching == Filter(start, Target(o)) && Ascending(matching, RowId)
  }

  lemma {:induction false} SettingOf(start: seq<Row>, o: Options)
    requires Ascending(start, RowId)
    ensures Setting(start, Filter(start, Target(o)), o)
  {
    FilterAscending(start, RowId, Target(o));
  }

  lemma VisitStep(table: seq<Row>, start: seq<Row>, matching: seq<Row>, n: nat, o: Options)
    requires Setting(start, matching, o) && n < |matching| && TableAt(table, start, matching, n, o)
    ensures TableAt(if o.apply && Changes(matching[n], o)
                    then Updated(table, matching[n].id, matching[n].locale, NextLocale(matching[n], o))
                    else table, start, matching, n + 1, o)
  {
    var r := matching[n];
    var after := if o.apply && Changes(r, o) then Updated(table, r.id, r.locale, NextLocale(r, o)) else table;
    FilterMembers(start, Target(o));
    assert r in matching;
    var at :| 0 <= at < |start| && start[at] == r;
    forall i | 0 <= i < |start|
      ensures after[i] == if Visited(start[i], matching, n + 1) then Written(start[i], o) else start[i]
    {
      VisitedStep(start, matching, n, o, at, i);
    }
  }

  lemma VisitedStep(start: seq<Row>, matching: seq<Row>, n: nat, o: Options, at: nat, i: nat)
    requires Setting(start, matching, o) && n < |matching| && at < |start| && start[at] == matching[n] && i < |start|
    ensures Visited(start[i], matching, n + 1) <==> Visited(start[i], matching, n) || i == at
    ensures start[i].id == matching[n].id <==> i == at
    ensures !Visited(start[at], matching, n)
  {
    assert i < at ==> RowId(start[i]) < RowId(start[at]);
    assert at < i ==> RowId(start[at]) < RowId(start[i]);
    forall j | 0 <= j < n ensures matching[j].id != matching[n].id { assert RowId(matching[j]) < RowId(matching[n]); }
    if Visited(start[i], matching, n) {
      var j :| 0 <= j < n && matching[j].id == start[i].id;
      assert j < n + 1;
    }
    if i == at { assert matching[n].id == start[i].id; }
  }

  /** Behind the cursor's position nothing has been written, so the query sees what it would have seen at the start. */
  lemma {:induction false} SamePage(table: seq<Row>, start: seq<Row>, keep: Row -> bool)
    requires |table| == |start|
    requires forall i :: 0 <= i < |start| ==>
        keep(table[i]) == keep(start[i]) && (keep(start[i]) ==> table[i] == start[i])
    ensures Filter(table, keep) == Filter(start, keep)
  {
    if start != [] {
      SamePage(table[1..], start[1..], keep);
    }
  }

  lemma QuerySame(table: seq<Row>, start: seq<Row>, matching: seq<Row>, n: nat, o: Options, take: nat)
    requires Setting(start, matching, o) && n <= |matching| && TableAt(table, start, matching, n, o)
    ensures var after := Cursor(matching, RowId, n);
            FindPage(table, RowId, Target(o), after, take) == FindPage(start, RowId, Target(o), after, take)
  {
    var after := Cursor(matching, RowId, n);
    var keep := Beyond(RowId, Target(o), after);
    forall i | 0 <= i < |start| ensures keep(table[i]) == keep(start[i]) && (keep(start[i]) ==> table[i] == start[i]) {
      if Visited(start[i], matching, n) {
        var j :| 0 <= j < n && matching[j].id == start[i].id;
        assert j < n - 1 ==> RowId(matching[j]) < RowId(matching[n - 1]);
      }
    }
    SamePage(table, start, keep);
  }

  /** Live, and without a locale, with the legacy literal, or of any locale when everything is resolved again. */
  predicate InScope(r: Row, o: Options) {
    !r.deleted && (o.reResolve || r.locale.None? || r.locale.value == "unknown")
  }

  /** What a pass makes of each row: under apply the rows in scope get their resolved locale. */
  predicate PassDone(before: seq<Row>, after: seq<Row>, o: Options) {
    && |after| == |before|
    && forall i :: 0 <= i < |before| ==>
         after[i] == if o.apply && InScope(before[i], o)
                     then Row(before[i].id, before[i].code, before[i].name, o.resolve(before[i].code, before[i].name),
                              before[i].deleted)
                     else before[i]
  }

  lemma {:induction false} TableAtEnd(table: seq<Row>, start: seq<Row>, o: Options)
    requires Ascending(start, RowId)
    requires var matching := Filter(start, Target(o)); TableAt(table, start, matching, |matching|, o)
    ensures PassDone(start, table, o)
    ensures forall r :: r in Filter(start, Target(o)) <==> r in start && InScope(r, o)
  {
    FilterMembers(start, Target(o));
    forall i | 0 <= i < |start|
      ensures Visited(start[i], Filter(start, Target(o)), |Filter(start, Target(o))|) <==> InScope(start[i], o)
    {
      VisitedIffTarget(start, o, i);
    }
  }

  /** The rows whose resolved locale differs from the stored one. */
  function DiffersAt(rows: seq<Row>, o: Options): set<nat> {
    set i: nat | i < |rows| && rows[i].locale != o.resolve(rows[i].code, rows[i].name)
  }

  lemma DiffersSnoc(rows: seq<Row>, r: Row, o: Options)
    ensures |DiffersAt(rows + [r], o)| ==
              |DiffersAt(rows, o)| + (if r.locale != o.resolve(r.code, r.name) then 1 else 0)
  {
    var all := rows + [r];
    assert forall i :: 0 <= i < |rows| ==> all[i] == rows[i];
    assert all[|rows|] == r;
    var differs := r.locale != o.resolve(r.code, r.name);
    assert DiffersAt(all, o) == DiffersAt(rows, o) + (if differs then {|rows|} else {});
  }

  lemma {:induction false} ChangedExactly(rows: seq<Row>, o: Options)
    ensures ChangedCount(rows, o) == |DiffersAt(rows, o)|
  {
    if rows != [] {
      var front, last := rows[..|rows| - 1], rows[|rows| - 1];
      ChangedExactly(front, o);
      DiffersSnoc(front, last, o);
      assert rows == front + [last];
    }
  }

  /** The histogram bucket of a locale: its text, or "null" for none. */
  predicate InBucket(l: Locale, key: string) {
    if l.None? then key == "null" else key == l.value
  }

  /** Positions of the rows of a code; of those whose stored or resolved locale is in a bucket; of the changed ones. */
  function OfCode(rows: seq<Row>, c: Code): set<nat> {
    set i: nat | i < |rows| && rows[i].code == c
  }

  function StoredIn(rows: seq<Row>, c: Code, key: string): set<nat> {
    set i: nat | i < |rows| && rows[i].code == c && InBucket(rows[i].locale, key)
  }

  function ResolvedTo(rows: seq<Row>, o: Options, c: Code, key: string): set<nat> {
    set i: nat | i < |rows| && rows[i].code == c && InBucket(o.resolve(rows[i].code, rows[i].name), key)
  }

  function ChangedOf(rows: seq<Row>, o: Options, c: Code): set<nat> {
    set i: nat | i < |rows| && rows[i].code == c && rows[i].locale != o.resolve(rows[i].code, rows[i].name)
  }

  lemma OfCodeSnoc(rows: seq<Row>, r: Row, c: Code)
    ensures |OfCode(rows + [r], c)| == |OfCode(rows, c)| + (if r.code == c then 1 else 0)
  {
    var all := rows + [r];
    assert (forall i :: 0 <= i < |rows| ==> all[i] == rows[i]) && all[|rows|] == r;
    var hit := r.code == c;
    assert OfCode(all, c) == OfCode(rows, c) + (if hit then {|rows|} else {});
  }

  lemma StoredSnoc(rows: seq<Row>, r: Row, c: Code, key: string)
    ensures |StoredIn(rows + [r], c, key)| ==
              |StoredIn(rows, c, key)| + (if r.code == c && InBucket(r.locale, key) then 1 else 0)
  {
    var all := rows + [r];
    assert (forall i :: 0 <= i < |rows| ==> all[i] == rows[i]) && all[|rows|] == r;
    var hit := r.code == c && InBucket(r.locale, key);
    assert StoredIn(all, c, key) == StoredIn(rows, c, key) + (if hit then {|rows|} else {});
  }

  lemma ResolvedSnoc(rows: seq<Row>, r: Row, o: Options, c: Code, key: string)
    ensures |ResolvedTo(rows + [r], o, c, key)| ==
              |ResolvedTo(rows, o, c, key)| +
              (if r.code == c && InBucket(o.resolve(r.code, r.name), key) then 1 else 0)
  {
    var all := rows + [r];
    assert (forall i :: 0 <= i < |rows| ==> all[i] == rows[i]) && all[|rows|] == r;
    var hit := r.code == c && InBucket(o.resolve(r.code, r.name), key);
    assert ResolvedTo(all, o, c, key) == ResolvedTo(rows, o, c, key) + (if hit then {|rows|} else {});
  }

  lemma ChangedOfSnoc(rows: seq<Row>, r: Row, o: Options, c: Code)
    ensures |ChangedOf(rows + [r], o, c)| ==
              |ChangedOf(rows, o, c)| + (if r.code == c && r.locale != o.resolve(r.code, r.name) then 1 else 0)
  {
    var all := rows + [r];
    assert (forall i :: 0 <= i < |rows| ==> all[i] == rows[i]) && all[|rows|] == r;
    var hit := r.code == c && r.locale != o.resolve(r.code, r.name);
    assert ChangedOf(all, o, c) == ChangedOf(rows, o, c) + (if hit then {|rows|} else {});
  }

  lemma {:induction false} CountSnoc(xs: seq<string>, x: string, key: string)
    ensures Count(xs + [x], key) == Count(xs, key) + (if x == key then 1 else 0)
  {
    assert (xs + [x])[..|xs|] == xs;
  }

  lemma {:induction false} CodeTotal(rows: seq<Row>, o: Options, c: Code)
    ensures |CodeRows(rows, c)| == |OfCode(rows, c)|
  {
    if rows != [] {
      var front, last := rows[..|rows| - 1], rows[|rows| - 1];
      assert rows == front + [last];
      CodeTotal(front, o, c);
      OfCodeSnoc(front, last, c);
    }
  }

  lemma {:induction false} CodeChanged(rows: seq<Row>, o: Options, c: Code)
    ensures ChangedCount(CodeRows(rows, c), o) == |ChangedOf(rows, o, c)|
  {
    if rows != [] {
      var front, last := rows[..|rows| - 1], rows[|rows| - 1];
      assert rows == front + [last];
      CodeChanged(front, o, c);
      ChangedOfSnoc(front, last, o, c);
      Snoc(front, last, o, c);
      Snoc(CodeRows(front, c), last, o, c);
    }
  }

  lemma {:induction false} CodeStored(rows: seq<Row>, o: Options, c: Code, key: string)
    ensures Count(Before(CodeRows(rows, c)), key) == |StoredIn(rows, c, key)|
  {
    if rows != [] {
      var front, last := rows[..|rows| - 1], rows[|rows| - 1];
      assert rows == front + [last];
      CodeStored(front, o, c, key);
      StoredSnoc(front, last, c, key);
      Snoc(front, last, o, c);
      Snoc(CodeRows(front, c), last, o, c);
      CountSnoc(Before(CodeRows(front, c)), BucketKey(last.locale), key);
    }
  }

  lemma {:induction false} CodeResolved(rows: seq<Row>, o: Options, c: Code, key: string)
    ensures Count(After(CodeRows(rows, c), o), key) == |ResolvedTo(rows, o, c, key)|
  {
    if rows != [] {
      var front, last := rows[..|rows| - 1], rows[|rows| - 1];
      assert rows == front + [last];
      CodeResolved(front, o, c, key);
      ResolvedSnoc(front, last, o, c, key);
      Snoc(front, last, o, c);
      Snoc(CodeRows(front, c), last, o, c);
      CountSnoc(After(CodeRows(front, c), o), BucketKey(NextLocale(last, o)), key);
    }
  }

  /** Every number of a report is the number of visited rows it stands for. */
  lemma ReportInFull(byCode: map<Code, CodeStats>, scanned: nat, changed: nat, rows: seq<Row>, o: Options, c: Code,
                     key: string)
    requires ReportOk(byCode, scanned, changed, rows, o)
    ensures scanned == |rows| && changed == |DiffersAt(rows, o)|
    ensures c in byCode <==> OfCode(rows, c) != {}
    ensures c in byCode ==>
      && byCode[c].total == |OfCode(rows, c)| && byCode[c].changed == |ChangedOf(rows, o, c)|
      && Of(byCode[c].before, key) == |StoredIn(rows, c, key)|
      && Of(byCode[c].after, key) == |ResolvedTo(rows, o, c, key)|
  {
    ChangedExactly(rows, o);
    CodeTotal(rows, o, c);
    CodeChanged(rows, o, c);
    CodeStored(rows, o, c, key);
    CodeResolved(rows, o, c, key);
    assert CodeOk(byCode, rows, o, c);
    if c in byCode {
      assert TalliesAt(byCode[c].before, Before(CodeRows(rows, c)), key);
      assert TalliesAt(byCode[c].after, After(CodeRows(rows, c), o), key);
    }
  }

  // ---------------------------------------------------------------------
  // The loop
  // ---------------------------------------------------------------------

  class Backfill {
    const options: Options
    var table: seq<Row>
    var scanned: nat
    var changed: nat
    var byCode: map<Code, CodeStats>
    ghost var visited: seq<Row>

    constructor (options: Options, table: seq<Row>)
      ensures this.options == options && this.table == table && scanned == 0 && changed == 0 && byCode == map[]
      ensures visited == []
    {
      this.options, this.table := options, table;
      scanned, changed, byCode, visited := 0, 0, map[], [];
    }

    ghost predicate Progress(start: seq<Row>, matching: seq<Row>, n: nat)
      reads this
    {
      && Setting(start, matching, options) && n <= |matching|
      && TableAt(table, start, matching, n, options)
      && ReportOk(byCode, scanned, changed, visited, options)
      && |visited| == n && forall i :: 0 <= i < n ==> visited[i] == matching[i]
    }

    /** One row enters its code's totals and histograms, and the counters. */
    method CountRow(row: Row)
      requires ReportOk(byCode, scanned, changed, visited, options)
      modifies `byCode, `scanned, `changed, `visited
      ensures ReportOk(byCode, scanned, changed, visited, options) && visited == old(visited) + [row]
    {
      ReportStep(byCode, scanned, changed, visited, row, options);
      visited := visited + [row];
      var stats := if row.code in byCode then byCode[row.code] else EmptyStats();
      stats := stats.(total := stats.total + 1, before := Bump(stats.before, BucketKey(row.locale)));
      stats := stats.(after := Bump(stats.after, BucketKey(options.resolve(row.code, row.name))));
      scanned := scanned + 1;
      if row.locale != options.resolve(row.code, row.name) {
        stats := stats.(changed := stats.changed + 1);
        changed := changed + 1;
      }
      byCode := byCode[row.code := stats];
    }

    /** One row: counted and, under apply, rewritten if its resolved locale differs. */
    method VisitRow(row: Row, ghost start: seq<Row>, ghost matching: seq<Row>, ghost n: nat)
      requires Progress(start, matching, n) && n < |matching| && row == matching[n]
      modifies this
      ensures Progress(start, matching, n + 1)
    {
      VisitStep(table, start, matching, n, options);
      CountRow(row);
      var nextLocale := options.resolve(row.code, row.name);
      if row.locale != nextLocale && options.apply {
        table := Updated(table, row.id, row.locale, nextLocale);
      }
    }

    /** The query behind the cursor still yields the next stretch of the original targets. */
    method QueryPage(after: Option<Id>, take: nat, ghost start: seq<Row>, ghost matching: seq<Row>, ghost n: nat)
      returns (rows: seq<Row>)
      requires Progress(start, matching, n) && after == Cursor(matching, RowId, n)
      ensures IsPage(rows, matching, n, take)
    {
      QuerySame(table, start, matching, n, options, take);
      NextPage(start, RowId, Target(options), n, after, take);
      TakeIsPage(matching, n, take);
      rows := FindPage(table, RowId, Target(options), after, take);
    }

    method VisitRows(rows: seq<Row>, ghost take: nat, ghost start: seq<Row>, ghost matching: seq<Row>, ghost n: nat)
      requires Progress(start, matching, n) && IsPage(rows, matching, n, take)
      modifies this
      ensures Progress(start, matching, n + |rows|)
    {
      for i := 0 to |rows|
        invariant Progress(start, matching, n + i)
      {
        VisitRow(rows[i], start, matching, n + i);
      }
    }

    /** One page behind the cursor, row by row. */
    method VisitPage(after: Option<Id>, take: nat, ghost start: seq<Row>, ghost matching: seq<Row>, ghost n: nat)
      returns (size: nat, next: Option<Id>)
      requires Progress(start, matching, n) && after == Cursor(matching, RowId, n) && 1 <= take
      modifies this
      ensures n + size <= |matching| && Progress(start, matching, n + size) && next == Cursor(matching, RowId, n + size)
      ensures size <= take && (size < take ==> n + size == |matching|)
    {
      var rows := QueryPage(after, take, start, matching, n);
      size := |rows|;
      next := if size == 0 then after else Some(rows[size - 1].id);
      VisitRows(rows, take, start, matching, n);
    }

    /**
     One pass.  Every live target row is visited exactly once, in id order, although the
     pass's own writes remove rows from its filter; under apply each of them ends with its
     resolved locale and no other row changes; the report counts exactly those rows.
     */
    method Run(batchSize: nat)
      requires Ascending(table, RowId) && scanned == 0 && changed == 0 && byCode == map[]
          && visited == [] && 1 <= batchSize
      modifies this
      ensures visited == Filter(old(table), Target(options))
      ensures TableAt(table, old(table), visited, |visited|, options) && PassDone(old(table), table, options)
      ensures forall r :: r in visited <==> r in old(table) && InScope(r, options)
      ensures ReportOk(byCode, scanned, changed, visited, options)
      ensures scanned == |visited| && changed == |DiffersAt(visited, options)|
    {
      ghost var start := table;
      ghost var matching := Filter(start, Target(options));
      SettingOf(start, options);
      forall c ensures CodeOk(byCode, visited, options, c) {}
      var lastId: Option<Id> := None;
      ghost var n := 0;
      var more := true;
      while more
        invariant Progress(start, matching, n) && lastId == Cursor(matching, RowId, n)
        invariant !more ==> n == |matching|
        decreases |matching| - n, more
      {
        var size;
        size, lastId := VisitPage(lastId, batchSize, start, matching, n);
        n := n + size;
        more := size == batchSize;
      }
      assert visited == matching;
      TableAtEnd(table, start, options);
      ChangedExactly(visited, options);
    }
  }

  /** After an applied pass nothing is left to change: a second pass reports zero changes and writes nothing. */
  lemma {:induction false} SecondPassIdle(start: seq<Row>, table: seq<Row>, o: Options)
    requires Ascending(start, RowId) && o.apply
    requires var matching := Filter(start, Target(o)); TableAt(table, start, matching, |matching|, o)
    ensures forall i :: 0 <= i < |table| && Target(o)(table[i]) ==> !Changes(table[i], o)
    ensures ChangedCount(Filter(table, Target(o)), o) == 0
  {
    var matching := Filter(start, Target(o));
    FilterMembers(start, Target(o));
    forall i | 0 <= i < |table| && Target(o)(table[i]) ensures !Changes(table[i], o) {
      VisitedIffTarget(start, o, i);
    }
    FilterMembers(table, Target(o));
    NothingChanges(Filter(table, Target(o)), o);
  }

  lemma {:induction false} VisitedIffTarget(start: seq<Row>, o: Options, i: nat)
    requires Ascending(start, RowId) && i < |start|
    ensures var matching := Filter(start, Target(o)); Visited(start[i], matching, |matching|) <==> Target(o)(start[i])
  {
    var matching := Filter(start, Target(o));
    FilterMembers(start, Target(o));
    if Visited(start[i], matching, |matching|) {
      var j :| 0 <= j < |matching| && matching[j].id == start[i].id;
      assert matching[j] in matching;
      var k :| 0 <= k < |start| && start[k] == matching[j];
      assert (k < i ==> RowId(start[k]) < RowId(start[i])) && (i < k ==> RowId(start[i]) < RowId(start[k]));
    }
    if Target(o)(start[i]) {
      assert start[i] in matching;
      var j :| 0 <= j < |matching| && matching[j] == start[i];
    }
  }

  lemma {:induction false} NothingChanges(rows: seq<Row>, o: Options)
    requires forall r :: r in rows ==> !Changes(r, o)
    ensures ChangedCount(rows, o) == 0
  {
    if rows != [] {
      NothingChanges(rows[..|rows| - 1], o);
    }
  }
}
