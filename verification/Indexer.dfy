/**
 The transcript index (src/media2text/core/archive/indexer.py): a table of segments that is rebuilt
 or brought up to date from the transcript files.
 */
module Indexer {
  import opened Wrappers
  import opened Text

  // ---------------------------------------------------------------------------------------------
  // Files and rows
  // ---------------------------------------------------------------------------------------------

  /** The value of `text`: a string, something falsy, or a value without `strip`. */
  datatype TextField = NoText | Words(text: string) | NotText

  /** A time: absent, a number, or something `float` rejects. */
  datatype TimeField = NoTime | At(sec: real) | NotTime

  datatype Segment = NotAnObject | Segment(text: TextField, start: TimeField, end: TimeField)

  /** What loading a file gives: nothing to index, an exception, or a list. */
  datatype Content = Unusable | Raises | Segments(items: seq<Segment>)

  datatype Session = Session(
    kind: string, id: string, creator: string, secUid: string, media: string, startedAt: Option<string>)

  datatype File = File(session: Option<Session>, content: Content)

  /** The files that exist; sessions are resolved from the path alone. */
  type Files = map<string, File>

  datatype Row = Row(
    session: Session,
    path: string,
    index: nat,
    start: Option<real>,
    end: Option<real>,
    text: string,
    indexedAt: string)

  type Table = set<Row>

  // ---------------------------------------------------------------------------------------------
  // One file
  // ---------------------------------------------------------------------------------------------

  function TextOf(seg: Segment): string {
    if seg.Segment? && seg.text.Words? then Strip(seg.text.text) else ""
  }

  /** The loop raises at this item. */
  predicate Breaks(seg: Segment) {
    seg.Segment? && (seg.text.NotText? || (TextOf(seg) != "" && (seg.start.NotTime? || seg.end.NotTime?)))
  }

  function Seconds(t: TimeField): Option<real> {
    if t.At? then Some(t.sec) else None
  }

  function RowOf(session: Session, path: string, index: nat, seg: Segment, now: string): Row
    requires seg.Segment?
  {
    Row(session, path, index, Seconds(seg.start), Seconds(seg.end), TextOf(seg), now)
  }

  /** The rows of the non-blank segments, each under its original index. */
  function RowsOf(session: Session, path: string, items: seq<Segment>, now: string): Table {
    set i | 0 <= i < |items| && TextOf(items[i]) != "" :: RowOf(session, path, i, items[i], now)
  }

  function RowsAt(session: Session, path: string, index: nat, seg: Segment, now: string): Table {
    if TextOf(seg) != "" then {RowOf(session, path, index, seg, now)} else {}
  }

  function CountOf(items: seq<Segment>): nat {
    if items == [] then 0
    else CountOf(items[..|items| - 1]) + if TextOf(items[|items| - 1]) != "" then 1 else 0
  }

  /** The items before the first one that raises. */
  function Usable(items: seq<Segment>): seq<Segment> {
    if items == [] || Breaks(items[0]) then [] else [items[0]] + Usable(items[1..])
  }

  /** The file gets as far as replacing its rows. */
  predicate Touches(files: Files, path: string) {
    path in files && files[path].session.Some? && files[path].content.Segments?
  }

  /** The rows a file leaves in the table: all its non-blank segments, up to one that raises. */
  function Contribution(files: Files, path: string, now: string): Table {
    if Touches(files, path) then RowsOf(files[path].session.value, path, Usable(files[path].content.items), now) else {}
  }

  function OtherRows(rows: Table, path: string): Table {
    set r | r in rows && r.path != path
  }

  datatype Outcome = Indexed(count: nat) | Errored

  predicate Fails(files: Files, path: string) {
    && path in files && files[path].session.Some?
    && (files[path].content.Raises?
        || (files[path].content.Segments? && Usable(files[path].content.items) != files[path].content.items))
  }

  function OutcomeOf(files: Files, path: string): Outcome {
    if Fails(files, path) then Errored
    else if Touches(files, path) then Indexed(CountOf(files[path].content.items))
    else Indexed(0)
  }

  function Updated(files: Files, rows: Table, path: string, now: string): Table {
    if Touches(files, path) then OtherRows(rows, path) + Contribution(files, path, now) else rows
  }

  lemma UsableCons(x: Segment, rest: seq<Segment>)
    ensures Usable([x] + rest) == if Breaks(x) then [] else [x] + Usable(rest)
  {
    assert ([x] + rest)[1..] == rest;
  }

  lemma SameTail<T>(x: T, a: seq<T>, b: seq<T>)
    ensures [x] + a == [x] + b <==> a == b
  {
    assert ([x] + a)[1..] == a && ([x] + b)[1..] == b;
  }

  lemma TakeCons<T>(x: T, rest: seq<T>, k: nat)
    requires 0 < k <= |rest| + 1
    ensures ([x] + rest)[..k] == [x] + rest[..k - 1]
  {
  }

  /** The first `k` items being usable, the next one decides. */
  lemma {:induction false} UsableStep(items: seq<Segment>, k: nat)
    requires k < |items| && Usable(items[..k]) == items[..k]
    ensures Breaks(items[k]) ==> Usable(items) == items[..k] && Usable(items) != items
    ensures !Breaks(items[k]) ==> Usable(items[..k + 1]) == items[..k + 1]
    decreases k
  {
    var x, rest := items[0], items[1..];
    assert items == [x] + rest;
    UsableCons(x, rest);
    TakeCons(x, rest, k + 1);
    UsableCons(x, rest[..k]);
    if k > 0 {
      TakeCons(x, rest, k);
      UsableCons(x, rest[..k - 1]);
      SameTail(x, Usable(rest[..k - 1]), rest[..k - 1]);
      UsableStep(rest, k - 1);
    }
  }

  datatype Stats = Stats(indexedFiles: nat, indexedSegments: nat, skipped: seq<string>, errors: seq<string>)

  class Archive {
    var rows: Table

    constructor ()
      ensures rows == {}
    {
      rows := {};
    }

    /** One turn of the loop: whether it raises, and how many rows it inserts. */
    method InsertSegment(session: Session, path: string, index: nat, seg: Segment, now: string)
      returns (raises: bool, inserted: nat)
      modifies this
      ensures raises <==> Breaks(seg)
      ensures !raises ==> rows == old(rows) + RowsAt(session, path, index, seg, now)
      ensures !raises ==> inserted == if TextOf(seg) != "" then 1 else 0
      ensures raises ==> rows == old(rows)
    {
      raises, inserted := false, 0;
      if seg.NotAnObject? {
        return;
      }
      if seg.text.NotText? {
        return true, 0;
      }
      if TextOf(seg) == "" {
        return;
      }
      if seg.start.NotTime? || seg.end.NotTime? {
        return true, 0;
      }
      rows := rows + {RowOf(session, path, index, seg, now)};
      inserted := 1;
    }

    method InsertSegments(session: Session, path: string, items: seq<Segment>, now: string) returns (outcome: Outcome)
      modifies this
      ensures rows == old(rows) + RowsOf(session, path, Usable(items), now)
      ensures outcome == if Usable(items) == items then Indexed(CountOf(items)) else Errored
    {
      var count, k := 0, 0;
      while k < |items|
        invariant k <= |items| && Usable(items[..k]) == items[..k]
        invariant IsInserted(old(rows), rows, session, path, items[..k], now, count)
      {
        InsertedStep(old(rows), rows, session, path, items, k, now, count);
        UsableStep(items, k);
        var raises, inserted := InsertSegment(session, path, k, items[k], now);
        if raises {
          return Errored;
        }
        count := count + inserted;
        k := k + 1;
      }
      assert items[..|items|] == items;
      return Indexed(count);
    }

    method IndexTranscriptFile(files: Files, path: string, now: string) returns (outcome: Outcome)
      modifies this
      ensures rows == Updated(files, old(rows), path, now)
      ensures outcome == OutcomeOf(files, path)
    {
      if path !in files {
        return Indexed(0);
      }
      var file := files[path];
      if file.session.None? {
        return Indexed(0);
      }
      if file.content.Raises? {
        return Errored;
      }
      if file.content.Unusable? {
        return Indexed(0);
      }
      rows := OtherRows(rows, path);
      outcome := InsertSegments(file.session.value, path, file.content.items, now);
    }

    /** `paths` are the collected files; `clock` tells the time of each. */
    method IndexAll(files: Files, paths: seq<string>, clock: string -> string, rebuild: bool) returns (stats: Stats)
      modifies this
      ensures rows == AfterAll(files, if rebuild then {} else old(rows), paths, clock)
      ensures stats == StatsOf(files, paths)
    {
      stats := Stats(0, 0, [], []);
      if rebuild {
        rows := {};
      }
      ghost var start := rows;
      for i := 0 to |paths|
        invariant rows == AfterAll(files, start, paths[..i], clock)
        invariant stats == StatsOf(files, paths[..i])
      {
        assert paths[..i + 1][..i] == paths[..i];
        var outcome := IndexTranscriptFile(files, paths[i], clock(paths[i]));
        match outcome
        case Errored => stats := stats.(errors := stats.errors + [paths[i]]);
        case Indexed(n) =>
          if n == 0 {
            stats := stats.(skipped := stats.skipped + [paths[i]]);
          } else {
            stats := stats.(indexedFiles := stats.indexedFiles + 1, indexedSegments := stats.indexedSegments + n);
          }
      }
      assert paths[..|paths|] == paths;
    }
  }

  lemma MoreCount(items: seq<Segment>, k: nat)
    requires k < |items|
    ensures CountOf(items[..k + 1]) == CountOf(items[..k]) + if TextOf(items[k]) != "" then 1 else 0
  {
    assert items[..k + 1][..k] == items[..k];
  }

  ghost predicate IsInserted(before: Table, after: Table, session: Session, path: string, items: seq<Segment>,
                             now: string, count: nat) {
    after == before + RowsOf(session, path, items, now) && count == CountOf(items)
  }

  lemma InsertedStep(before: Table, middle: Table, session: Session, path: string, items: seq<Segment>, k: nat,
                     now: string, count: nat)
    requires k < |items| && IsInserted(before, middle, session, path, items[..k], now, count)
    ensures IsInserted(before, middle + RowsAt(session, path, k, items[k], now), session, path, items[..k + 1], now,
                       count + if TextOf(items[k]) != "" then 1 else 0)
  {
    MoreRows(session, path, items, k, now);
    MoreCount(items, k);
    UnionAssociates(before, RowsOf(session, path, items[..k], now), RowsAt(session, path, k, items[k], now));
  }

  lemma UnionAssociates(a: Table, b: Table, c: Table)
    ensures (a + b) + c == a + (b + c)
  {
  }

  lemma MoreRows(session: Session, path: string, items: seq<Segment>, k: nat, now: string)
    requires k < |items|
    ensures RowsOf(session, path, items[..k + 1], now) ==
            RowsOf(session, path, items[..k], now) + RowsAt(session, path, k, items[k], now)
  {
  }

  function AfterAll(files: Files, rows: Table, paths: seq<string>, clock: string -> string): Table {
    if paths == [] then rows
    else
      var path := paths[|paths| - 1];
      Updated(files, AfterAll(files, rows, paths[..|paths| - 1], clock), path, clock(path))
  }

  function StatsOf(files: Files, paths: seq<string>): Stats {
    if paths == [] then Stats(0, 0, [], [])
    else
      var path := paths[|paths| - 1];
      var s := StatsOf(files, paths[..|paths| - 1]);
      match OutcomeOf(files, path)
      case Errored => s.(errors := s.errors + [path])
      case Indexed(n) =>
        if n == 0 then s.(skipped := s.skipped + [path])
        else s.(indexedFiles := s.indexedFiles + 1, indexedSegments := s.indexedSegments + n)
  }

  // ---------------------------------------------------------------------------------------------
  // What the table holds afterwards
  // ---------------------------------------------------------------------------------------------

  function Untimed(r: Row): Row {
    r.(indexedAt := "")
  }

  /** The table without its timestamps. */
  function Facts(rows: Table): Table {
    set r | r in rows :: Untimed(r)
  }

  predicate Distinct(paths: seq<string>) {
    forall i, j :: 0 <= i < j < |paths| ==> paths[i] != paths[j]
  }

  /** The rows of files that the run does not replace. */
  function Untouched(files: Files, rows: Table, paths: seq<string>): Table {
    set r | r in rows && !(r.path in paths && Touches(files, r.path))
  }

  /** What the files of the run say the table should hold. */
  function Expected(files: Files, paths: seq<string>): Table {
    if paths == [] then {}
    else Expected(files, paths[..|paths| - 1]) + Contribution(files, paths[|paths| - 1], "")
  }

  lemma ContributionFacts(files: Files, path: string, now: string)
    ensures Facts(Contribution(files, path, now)) == Contribution(files, path, "")
    ensures forall r :: r in Contribution(files, path, now) ==> r.path == path && Touches(files, path)
  {
    if Touches(files, path) {
      var session, items := files[path].session.value, Usable(files[path].content.items);
      forall r | r in RowsOf(session, path, items, "") ensures r in Facts(RowsOf(session, path, items, now)) {
        var i :| 0 <= i < |items| && TextOf(items[i]) != "" && r == RowOf(session, path, i, items[i], "");
        assert RowOf(session, path, i, items[i], now) in RowsOf(session, path, items, now);
        assert r == Untimed(RowOf(session, path, i, items[i], now));
      }
    }
  }

  lemma FactsCat(a: Table, b: Table)
    ensures Facts(a + b) == Facts(a) + Facts(b)
  {
    forall r | r in Facts(a) + Facts(b) ensures r in Facts(a + b) {
      var q :| q in a + b && r == Untimed(q);
    }
  }

  lemma OthersFacts(rows: Table, path: string)
    ensures Facts(OtherRows(rows, path)) == OtherRows(Facts(rows), path)
  {
    forall r | r in OtherRows(Facts(rows), path) ensures r in Facts(OtherRows(rows, path)) {
      var q :| q in rows && r == Untimed(q);
      assert q in OtherRows(rows, path);
    }
  }

  lemma {:induction false} ExpectedPaths(files: Files, paths: seq<string>)
    ensures forall r :: r in Expected(files, paths) ==> r.path in paths && Touches(files, r.path)
  {
    if paths != [] {
      ExpectedPaths(files, paths[..|paths| - 1]);
      ContributionFacts(files, paths[|paths| - 1], "");
    }
  }

  lemma UntouchedStep(files: Files, rows: Table, front: seq<string>, path: string)
    ensures Untouched(files, rows, front + [path]) ==
            var u := Untouched(files, rows, front);
            if Touches(files, path) then OtherRows(u, path) else u
  {
  }

  lemma OthersCat(a: Table, b: Table, path: string)
    requires forall r :: r in b ==> r.path != path
    ensures OtherRows(a + b, path) == OtherRows(a, path) + b
  {
  }

  /**
   Apart from timestamps, the table holds what the collected files say, and the old rows of the
   files that were not replaced; whatever the errors were.
   */
  lemma {:induction false} TableIs(files: Files, rows: Table, paths: seq<string>, clock: string -> string)
    requires Distinct(paths)
    ensures Facts(AfterAll(files, rows, paths, clock)) == Facts(Untouched(files, rows, paths)) + Expected(files, paths)
  {
    if paths == [] {
      assert Untouched(files, rows, []) == rows;
    } else {
      var front, path := paths[..|paths| - 1], paths[|paths| - 1];
      var t, u := AfterAll(files, rows, front, clock), Untouched(files, rows, front);
      TableIs(files, rows, front, clock);
      assert paths == front + [path];
      UntouchedStep(files, rows, front, path);
      if Touches(files, path) {
        FactsCat(OtherRows(t, path), Contribution(files, path, clock(path)));
        OthersFacts(t, path);
        OthersFacts(u, path);
        ExpectedPaths(files, front);
        OthersCat(Facts(u), Expected(files, front), path);
        ContributionFacts(files, path, clock(path));
      }
    }
  }

  /** After a rebuild the table is exactly what the collected files say. */
  lemma RebuildIs(files: Files, paths: seq<string>, clock: string -> string)
    requires Distinct(paths)
    ensures Facts(AfterAll(files, {}, paths, clock)) == Expected(files, paths)
  {
    TableIs(files, {}, paths, clock);
    assert Facts(Untouched(files, {}, paths)) == {};
  }

  /** Row by row: one for each non-blank segment of a replaced file, under its index in the file. */
  lemma {:induction false} ExpectedIff(files: Files, paths: seq<string>, r: Row)
    ensures r in Expected(files, paths) <==>
            && r.path in paths && Touches(files, r.path)
            && var items := Usable(files[r.path].content.items);
               r.index < |items| && TextOf(items[r.index]) != ""
               && r == RowOf(files[r.path].session.value, r.path, r.index, items[r.index], "")
  {
    if paths != [] {
      ExpectedIff(files, paths[..|paths| - 1], r);
      assert r.path in paths <==> r.path in paths[..|paths| - 1] || r.path == paths[|paths| - 1];
    }
  }

  /** The loop over the segments raises here: a text without `strip`, or a time that is no number beside a text. */
  ghost predicate RaisesAt(seg: Segment) {
    && seg.Segment?
    && (seg.text.NotText?
        || (seg.text.Words? && Strip(seg.text.text) != "" && (seg.start.NotTime? || seg.end.NotTime?)))
  }

  /** The row of a segment: its stripped text, its times where given, the file and its session. */
  ghost predicate IsRowOf(r: Row, session: Session, path: string, index: nat, seg: Segment) {
    && seg.Segment? && seg.text.Words? && r.text == Strip(seg.text.text) && r.text != ""
    && r.session == session && r.path == path && r.index == index
    && (seg.start.At? ==> r.start == Some(seg.start.sec)) && (!seg.start.At? ==> r.start == None)
    && (seg.end.At? ==> r.end == Some(seg.end.sec)) && (!seg.end.At? ==> r.end == None)
  }

  lemma RowIs(r: Row, session: Session, path: string, index: nat, seg: Segment)
    ensures TextOf(seg) != "" && r == RowOf(session, path, index, seg, r.indexedAt) <==>
            IsRowOf(r, session, path, index, seg)
  {
  }

  /** The segments that count are those before the first that raises. */
  lemma {:induction false} UsableIs(items: seq<Segment>)
    ensures Usable(items) <= items
    ensures forall i :: 0 <= i < |Usable(items)| ==> !RaisesAt(items[i])
    ensures |Usable(items)| < |items| ==> RaisesAt(items[|Usable(items)|])
  {
    if items != [] && !Breaks(items[0]) {
      UsableIs(items[1..]);
      assert items == [items[0]] + items[1..];
    }
  }

  /** What the table holds of a file, said by the file alone. */
  lemma {:induction false} RowExpectedIff(files: Files, paths: seq<string>, r: Row)
    requires r.indexedAt == ""
    ensures r in Expected(files, paths) <==>
            && r.path in paths && r.path in files
            && files[r.path].session.Some? && files[r.path].content.Segments?
            && var items := files[r.path].content.items;
               && r.index < |items| && (forall i :: 0 <= i <= r.index ==> !RaisesAt(items[i]))
               && IsRowOf(r, files[r.path].session.value, r.path, r.index, items[r.index])
  {
    ExpectedIff(files, paths, r);
    if r.path in paths && Touches(files, r.path) {
      var items := files[r.path].content.items;
      UsableIs(items);
      if r.index < |items| {
        RowIs(r, files[r.path].session.value, r.path, r.index, items[r.index]);
      }
    }
  }

  /** An incremental run ends where a rebuild ends exactly if every old row belongs to a replaced file. */
  lemma IncrementalIsRebuildIff(files: Files, rows: Table, paths: seq<string>, clock: string -> string)
    requires Distinct(paths)
    ensures Facts(AfterAll(files, rows, paths, clock)) == Facts(AfterAll(files, {}, paths, clock)) <==>
            forall r :: r in rows ==> r.path in paths && Touches(files, r.path)
  {
    TableIs(files, rows, paths, clock);
    RebuildIs(files, paths, clock);
    ExpectedPaths(files, paths);
    var u := Untouched(files, rows, paths);
    if r :| r in u {
      assert Untimed(r) in Facts(u) && Untimed(r).path == r.path;
    } else {
      forall r | r in rows ensures r.path in paths && Touches(files, r.path) {
        assert r !in u;
      }
      assert Facts(u) == {};
    }
  }

  lemma {:induction false} UntouchedStay(files: Files, rows: Table, paths: seq<string>,
                                         all: seq<string>, clock: string -> string)
    requires forall p :: p in paths ==> p in all
    ensures Untouched(files, AfterAll(files, rows, paths, clock), all) == Untouched(files, rows, all)
  {
    if paths != [] {
      var front, path := paths[..|paths| - 1], paths[|paths| - 1];
      UntouchedStay(files, rows, front, all, clock);
      ContributionFacts(files, path, clock(path));
      var t := AfterAll(files, rows, front, clock);
      assert path in all;
      var u := Updated(files, t, path, clock(path));
      forall r ensures r in Untouched(files, u, all) <==> r in Untouched(files, t, all) {
      }
    }
  }

  /** Running again over the same files changes nothing but timestamps. */
  lemma RepeatChangesNothing(files: Files, rows: Table, paths: seq<string>,
                             clock: string -> string, later: string -> string)
    requires Distinct(paths)
    ensures var once := AfterAll(files, rows, paths, clock);
            Facts(AfterAll(files, once, paths, later)) == Facts(once)
  {
    var once := AfterAll(files, rows, paths, clock);
    TableIs(files, rows, paths, clock);
    TableIs(files, once, paths, later);
    UntouchedStay(files, rows, paths, paths, clock);
  }

  /** A row of a file that the run does not replace stays, timestamp and all; no other is added. */
  lemma OthersStay(files: Files, rows: Table, paths: seq<string>, clock: string -> string, r: Row)
    requires !(r.path in paths && Touches(files, r.path))
    ensures r in AfterAll(files, rows, paths, clock) <==> r in rows
  {
    UntouchedStay(files, rows, paths, paths, clock);
    assert r in rows <==> r in Untouched(files, rows, paths);
    var after := AfterAll(files, rows, paths, clock);
    assert r in after <==> r in Untouched(files, after, paths);
  }

  /** No two rows share path and index, as the table's UNIQUE constraint demands of every insert. */
  ghost predicate UniqueKeys(rows: Table) {
    forall a, b :: a in rows && b in rows && a.path == b.path && a.index == b.index ==> a == b
  }

  lemma {:induction false} KeysStayUnique(files: Files, rows: Table, paths: seq<string>, clock: string -> string)
    requires UniqueKeys(rows)
    ensures UniqueKeys(AfterAll(files, rows, paths, clock))
  {
    if paths != [] {
      var path := paths[|paths| - 1];
      KeysStayUnique(files, rows, paths[..|paths| - 1], clock);
      ContributionFacts(files, path, clock(path));
    }
  }

  // ---------------------------------------------------------------------------------------------
  // Counts
  // ---------------------------------------------------------------------------------------------

  /** The file raises: when it is loaded, or at one of its segments. */
  ghost predicate FileRaises(files: Files, path: string) {
    && path in files && files[path].session.Some?
    && (files[path].content.Raises?
        || (files[path].content.Segments? && exists seg :: seg in files[path].content.items && RaisesAt(seg)))
  }

  lemma FailsIff(files: Files, path: string)
    ensures Fails(files, path) <==> FileRaises(files, path)
  {
    if path in files && files[path].content.Segments? {
      var items := files[path].content.items;
      UsableIs(items);
      if seg :| seg in items && RaisesAt(seg) {
        var i :| 0 <= i < |items| && items[i] == seg;
      }
    }
  }

  /**
   What one more path does to the statistics: a file that raises is an error; one that leaves rows is
   counted with their number; any other is skipped.
   */
  lemma {:induction false} StatsGrow(files: Files, paths: seq<string>, path: string)
    ensures StatsOf(files, []) == Stats(0, 0, [], [])
    ensures var s, t, n := StatsOf(files, paths), StatsOf(files, paths + [path]), |Contribution(files, path, "")|;
            if FileRaises(files, path) then t == s.(errors := s.errors + [path])
            else if n == 0 then t == s.(skipped := s.skipped + [path])
            else t == s.(indexedFiles := s.indexedFiles + 1, indexedSegments := s.indexedSegments + n)
  {
    assert (paths + [path])[..|paths|] == paths;
    FailsIff(files, path);
    if !Fails(files, path) && Touches(files, path) {
      RowsCounted(files[path].session.value, path, files[path].content.items, "");
    }
  }

  /** Every row a file leaves carries the time of its insertion. */
  lemma RowsAreDated(files: Files, path: string, now: string)
    ensures forall r :: r in Contribution(files, path, now) ==> r.indexedAt == now
  {
  }

  /** Every path is counted exactly once. */
  lemma {:induction false} EveryPathCounted(files: Files, paths: seq<string>)
    ensures var s := StatsOf(files, paths); s.indexedFiles + |s.skipped| + |s.errors| == |paths|
  {
    if paths != [] {
      EveryPathCounted(files, paths[..|paths| - 1]);
    }
  }

  lemma {:induction false} RowsCounted(session: Session, path: string, items: seq<Segment>, now: string)
    ensures |RowsOf(session, path, items, now)| == CountOf(items)
  {
    if items == [] {
      assert RowsOf(session, path, items, now) == {};
    } else {
      var k := |items| - 1;
      RowsCounted(session, path, items[..k], now);
      MoreRows(session, path, items, k, now);
      assert items[..k + 1] == items;
    }
  }

  /** Without errors, the segments counted by a rebuild are the rows of the table. */
  lemma {:induction false} SegmentsCounted(files: Files, paths: seq<string>)
    requires Distinct(paths) && forall p :: p in paths ==> !Fails(files, p)
    ensures |Expected(files, paths)| == StatsOf(files, paths).indexedSegments
  {
    if paths != [] {
      var front, path := paths[..|paths| - 1], paths[|paths| - 1];
      SegmentsCounted(files, front);
      ExpectedPaths(files, front);
      ContributionFacts(files, path, "");
      assert Expected(files, front) !! Contribution(files, path, "");
      assert !Fails(files, path);
      if Touches(files, path) {
        RowsCounted(files[path].session.value, path, files[path].content.items, "");
      }
    }
  }
}
