/**
 * The v2/v3 registrar of `Manager` over the `pids` and `pid_versions`
 * tables (scielo_v3_manager/pid_manager.py:563-784) as functions of the
 * tables and the v3 generator's tokens: the record lookups, the legacy
 * scan, the lookup by v3, the formatting of a record, the v3 allocator
 * and `manage`. `PidManager.Manager` runs them on a `Database`.
 */
module PidsRegistrar {
  import opened Wrappers
  import opened Text
  import opened Seqs
  import opened Schema

  /** A record `manage` found: a legacy `pid_versions` row or a `pids` row. */
  datatype Registered = Legacy(legacy: PidVersionRow) | Current(row: PidRow)

  /** One `filter_by` of `_get_record` over `pids`. */
  datatype Criterion =
    | DoiAndFilename(doi: string, filename: string)
    | PrefixV2AndFilename(prefix: string, filename: string)
    | PrefixAopAndFilename(prefix: string, filename: string)
    | DoiIs(doi: string)
    | V2Is(v2: string)
    | AopIs(aop: string)

  predicate Holds(c: Criterion, row: PidRow)
  {
    match c
    case DoiAndFilename(doi, filename) => row.data.doi == doi && row.data.filename == filename
    case PrefixV2AndFilename(prefix, filename) => row.data.prefixV2 == prefix && row.data.filename == filename
    case PrefixAopAndFilename(prefix, filename) => row.data.prefixAop == prefix && row.data.filename == filename
    case DoiIs(doi) => row.data.doi == doi
    case V2Is(v2) => row.data.v2 == v2
    case AopIs(aop) => row.data.aop == aop
  }

  /** `query(NewPidVersion).filter_by(...).first()`, taken in stored order. */
  function FirstBy(pids: seq<PidRow>, c: Criterion): Option<PidRow>
  {
    First(pids, (row: PidRow) => Holds(c, row))
  }

  /** `a or b` on two query results. */
  function Either(a: Option<PidRow>, b: Option<PidRow>): Option<PidRow>
  {
    if a.Some? then a else b
  }

  /** `if not record and <active>: record = x`: one step of the cascade. */
  function Then(record: Option<PidRow>, active: bool, x: Option<PidRow>): Option<PidRow>
  {
    if record.None? && active then x else record
  }

  /** `_get_record`: the nested cascade of first-match queries, as written. */
  function GetRecord(pids: seq<PidRow>, v2: string, filename: string, doi: string, aop: string): Option<PidRow>
  {
    var pa, pv := DropLast(aop, 5), DropLast(v2, 5);
    var r1 := Then(None, filename != "" && doi != "", FirstBy(pids, DoiAndFilename(doi, filename)));
    var r2 := Then(r1, filename != "" && aop != "",
      Either(FirstBy(pids, PrefixV2AndFilename(pa, filename)), FirstBy(pids, PrefixAopAndFilename(pa, filename))));
    var r3 := Then(r2, filename != "" && v2 != "",
      Either(FirstBy(pids, PrefixV2AndFilename(pv, filename)), FirstBy(pids, PrefixAopAndFilename(pv, filename))));
    var r4 := Then(r3, doi != "", FirstBy(pids, DoiIs(doi)));
    var r5 := Then(r4, aop != "", Either(FirstBy(pids, V2Is(aop)), FirstBy(pids, AopIs(aop))));
    Then(r5, v2 != "", Either(FirstBy(pids, V2Is(v2)), FirstBy(pids, AopIs(v2))))
  }

  /** The priority list the cascade follows, with the inactive steps (an empty argument) left out. */
  function RecordCriteria(v2: string, filename: string, doi: string, aop: string): seq<Criterion>
  {
    (if filename != "" && doi != "" then [DoiAndFilename(doi, filename)] else [])
    + (if filename != "" && aop != "" then
         [PrefixV2AndFilename(DropLast(aop, 5), filename), PrefixAopAndFilename(DropLast(aop, 5), filename)]
       else [])
    + (if filename != "" && v2 != "" then
         [PrefixV2AndFilename(DropLast(v2, 5), filename), PrefixAopAndFilename(DropLast(v2, 5), filename)]
       else [])
    + (if doi != "" then [DoiIs(doi)] else [])
    + (if aop != "" then [V2Is(aop), AopIs(aop)] else [])
    + (if v2 != "" then [V2Is(v2), AopIs(v2)] else [])
  }

  /** The first row of the first criterion that matches any row. */
  function FirstMatch(pids: seq<PidRow>, cs: seq<Criterion>): Option<PidRow>
  {
    if cs == [] then None else Either(FirstBy(pids, cs[0]), FirstMatch(pids, cs[1..]))
  }

  lemma {:induction false} FirstMatchAppend(pids: seq<PidRow>, a: seq<Criterion>, b: seq<Criterion>)
    ensures FirstMatch(pids, a + b) == Either(FirstMatch(pids, a), FirstMatch(pids, b))
  {
    if a == [] {
      assert a + b == b;
    } else {
      assert (a + b)[1..] == a[1..] + b;
      FirstMatchAppend(pids, a[1..], b);
    }
  }

  /**
   * A criterion list finds nothing exactly when none of its criteria
   * matches a row; otherwise it finds the first row of the first
   * criterion that matches one, every earlier criterion matching none.
   */
  lemma {:induction false} FirstMatchMeaning(pids: seq<PidRow>, cs: seq<Criterion>)
    ensures FirstMatch(pids, cs).None? <==>
      forall j, row :: 0 <= j < |cs| && row in pids ==> !Holds(cs[j], row)
    ensures FirstMatch(pids, cs).Some? ==>
      exists j :: 0 <= j < |cs| && FirstMatch(pids, cs) == FirstBy(pids, cs[j]) &&
        forall i, row :: 0 <= i < j && row in pids ==> !Holds(cs[i], row)
  {
    if cs != [] {
      FirstMatchMeaning(pids, cs[1..]);
      if FirstBy(pids, cs[0]).None? && FirstMatch(pids, cs[1..]).Some? {
        var j :| 0 <= j < |cs[1..]| && FirstMatch(pids, cs[1..]) == FirstBy(pids, cs[1..][j]) &&
          forall i, row :: 0 <= i < j && row in pids ==> !Holds(cs[1..][i], row);
        assert FirstMatch(pids, cs) == FirstBy(pids, cs[j + 1]);
        forall i, row | 0 <= i < j + 1 && row in pids ensures !Holds(cs[i], row) {
          if i > 0 {
            assert cs[i] == cs[1..][i - 1];
          }
        }
      }
      if FirstBy(pids, cs[0]).None? {
        forall j, row | 0 <= j < |cs| && row in pids && Holds(cs[j], row)
          ensures FirstMatch(pids, cs[1..]).Some?
        {
          assert j > 0 && cs[j] == cs[1..][j - 1];
        }
      }
    }
  }

  /** The two-query steps of the cascade are two-criterion lists. */
  lemma FirstMatchPair(pids: seq<PidRow>, a: Criterion, b: Criterion)
    ensures FirstMatch(pids, [a, b]) == Either(FirstBy(pids, a), FirstBy(pids, b))
  {
    assert [a, b][1..] == [b];
    assert [b][1..] == [];
    assert FirstMatch(pids, [b]) == FirstBy(pids, b);
  }

  /** Appending a step whose own result is `x` when active: the cascade's `if not record and ...`. */
  lemma FirstMatchStep(pids: seq<PidRow>, a: seq<Criterion>, c: seq<Criterion>, active: bool, x: Option<PidRow>)
    requires FirstMatch(pids, c) == if active then x else None
    ensures FirstMatch(pids, a + c) == Then(FirstMatch(pids, a), active, x)
  {
    FirstMatchAppend(pids, a, c);
  }

  /** The cascade as written is the priority list. */
  lemma GetRecordFollowsCriteria(pids: seq<PidRow>, v2: string, filename: string, doi: string, aop: string)
    ensures GetRecord(pids, v2, filename, doi, aop) == FirstMatch(pids, RecordCriteria(v2, filename, doi, aop))
  {
    var pa, pv := DropLast(aop, 5), DropLast(v2, 5);
    var c1 := if filename != "" && doi != "" then [DoiAndFilename(doi, filename)] else [];
    var c2 := if filename != "" && aop != "" then [PrefixV2AndFilename(pa, filename), PrefixAopAndFilename(pa, filename)] else [];
    var c3 := if filename != "" && v2 != "" then [PrefixV2AndFilename(pv, filename), PrefixAopAndFilename(pv, filename)] else [];
    var c4 := if doi != "" then [DoiIs(doi)] else [];
    var c5 := if aop != "" then [V2Is(aop), AopIs(aop)] else [];
    var c6 := if v2 != "" then [V2Is(v2), AopIs(v2)] else [];
    assert RecordCriteria(v2, filename, doi, aop) == c1 + c2 + c3 + c4 + c5 + c6;
    FirstMatchPair(pids, PrefixV2AndFilename(pa, filename), PrefixAopAndFilename(pa, filename));
    FirstMatchPair(pids, PrefixV2AndFilename(pv, filename), PrefixAopAndFilename(pv, filename));
    FirstMatchPair(pids, V2Is(aop), AopIs(aop));
    FirstMatchPair(pids, V2Is(v2), AopIs(v2));
    assert [DoiAndFilename(doi, filename)][1..] == [];
    assert [DoiIs(doi)][1..] == [];
    FirstMatchStep(pids, [], c1, filename != "" && doi != "", FirstBy(pids, DoiAndFilename(doi, filename)));
    assert [] + c1 == c1;
    FirstMatchStep(pids, c1, c2, filename != "" && aop != "",
      Either(FirstBy(pids, PrefixV2AndFilename(pa, filename)), FirstBy(pids, PrefixAopAndFilename(pa, filename))));
    FirstMatchStep(pids, c1 + c2, c3, filename != "" && v2 != "",
      Either(FirstBy(pids, PrefixV2AndFilename(pv, filename)), FirstBy(pids, PrefixAopAndFilename(pv, filename))));
    FirstMatchStep(pids, c1 + c2 + c3, c4, doi != "", FirstBy(pids, DoiIs(doi)));
    FirstMatchStep(pids, c1 + c2 + c3 + c4, c5, aop != "", Either(FirstBy(pids, V2Is(aop)), FirstBy(pids, AopIs(aop))));
    FirstMatchStep(pids, c1 + c2 + c3 + c4 + c5, c6, v2 != "", Either(FirstBy(pids, V2Is(v2)), FirstBy(pids, AopIs(v2))));
  }

  /** `_get_record` finds nothing exactly when no active criterion matches any `pids` row. */
  lemma GetRecordMeaning(pids: seq<PidRow>, v2: string, filename: string, doi: string, aop: string)
    ensures var cs := RecordCriteria(v2, filename, doi, aop);
      GetRecord(pids, v2, filename, doi, aop).None? <==>
        forall j, row :: 0 <= j < |cs| && row in pids ==> !Holds(cs[j], row)
    ensures var r := GetRecord(pids, v2, filename, doi, aop);
      r.Some? ==> r.value in pids && exists c :: c in RecordCriteria(v2, filename, doi, aop) && Holds(c, r.value)
  {
    GetRecordFollowsCriteria(pids, v2, filename, doi, aop);
    var cs := RecordCriteria(v2, filename, doi, aop);
    FirstMatchMeaning(pids, cs);
    if FirstMatch(pids, cs).Some? {
      var j :| 0 <= j < |cs| && FirstMatch(pids, cs) == FirstBy(pids, cs[j]);
      assert cs[j] in cs;
    }
  }

  /** The state of `_get_record_old`'s scan: the highest id so far and its row. */
  datatype Scan = Scan(best: int, record: Option<PidVersionRow>)

  /** One iteration: `if rec.id > i: i = rec.id; record = rec`. */
  function ScanStep(s: Scan, rec: PidVersionRow): Scan
  {
    if rec.id > s.best then Scan(rec.id, Some(rec)) else s
  }

  /** The scan over `rows` from state `s`, in stored order. */
  function ScanRows(rows: seq<PidVersionRow>, s: Scan): Scan
  {
    if rows == [] then s else ScanStep(ScanRows(rows[..|rows| - 1], s), rows[|rows| - 1])
  }

  lemma {:induction false} ScanRowsAppend(a: seq<PidVersionRow>, b: seq<PidVersionRow>, s: Scan)
    ensures ScanRows(a + b, s) == ScanRows(b, ScanRows(a, s))
  {
    if b == [] {
      assert a + b == a;
    } else {
      assert (a + b)[..|a + b| - 1] == a + b[..|b| - 1];
      ScanRowsAppend(a, b[..|b| - 1], s);
    }
  }

  /**
   * The scan ends on the earliest row with the highest id when that id
   * beats the starting one, and keeps its start otherwise.
   */
  lemma {:induction false} ScanRowsMeaning(rows: seq<PidVersionRow>, s: Scan)
    ensures var r := ScanRows(rows, s);
      && r.best >= s.best
      && (forall x :: x in rows ==> x.id <= r.best)
      && (r == s <==> forall x :: x in rows ==> x.id <= s.best)
      && (r != s ==> r.record.Some? && r.best == r.record.value.id)
      && (r != s ==> exists j :: 0 <= j < |rows| && rows[j] == r.record.value &&
                                 forall i :: 0 <= i < j ==> rows[i].id < r.best)
  {
    if rows != [] {
      var init, last := rows[..|rows| - 1], rows[|rows| - 1];
      assert rows == init + [last];
      ScanRowsMeaning(init, s);
      var m := ScanRows(init, s);
      if last.id > m.best {
        assert ScanRows(rows, s).record.value == rows[|rows| - 1];
      } else if m != s {
        var j :| 0 <= j < |init| && init[j] == m.record.value && forall i :: 0 <= i < j ==> init[i].id < m.best;
        assert rows[j] == init[j];
      }
    }
  }

  /** The legacy rows `_get_record_old` scans: those whose v2 is the aop, then those whose v2 is the v2. */
  function OldCandidates(pidVersions: seq<PidVersionRow>, v2: string, aop: string): seq<PidVersionRow>
  {
    (if aop != "" then Filter(pidVersions, (row: PidVersionRow) => row.v2 == aop) else [])
    + (if v2 != "" then Filter(pidVersions, (row: PidVersionRow) => row.v2 == v2) else [])
  }

  /** `_get_record_old` */
  function OldRecord(pidVersions: seq<PidVersionRow>, v2: string, aop: string): Option<PidVersionRow>
  {
    ScanRows(OldCandidates(pidVersions, v2, aop), Scan(0, None)).record
  }

  /**
   * `_get_record_old` finds the first legacy row with the highest
   * positive id among those whose v2 is the aop or the v2, aop rows
   * first; nothing when there is none.
   */
  lemma OldRecordMeaning(pidVersions: seq<PidVersionRow>, v2: string, aop: string)
    ensures var cands := OldCandidates(pidVersions, v2, aop);
      var r := OldRecord(pidVersions, v2, aop);
      && (forall x :: x in cands <==> x in pidVersions && ((aop != "" && x.v2 == aop) || (v2 != "" && x.v2 == v2)))
      && (r.None? <==> forall x :: x in cands ==> x.id <= 0)
      && (r.Some? ==> r.value.id > 0 && forall x :: x in cands ==> x.id <= r.value.id)
      && (r.Some? ==> exists j :: 0 <= j < |cands| && cands[j] == r.value &&
                                  forall i :: 0 <= i < j ==> cands[i].id < r.value.id)
  {
    ScanRowsMeaning(OldCandidates(pidVersions, v2, aop), Scan(0, None));
  }

  /** `_get_record_by_v3`'s test on a `pids` row of that v3. */
  predicate MatchesByV3(row: PidRow, v2: string, filename: string, doi: string, aop: string)
  {
    || (filename != "" && filename == row.data.filename)
    || (doi != "" && doi == row.data.doi)
    || (aop != "" && (aop == row.data.v2 || aop == row.data.aop))
    || (v2 != "" && (v2 == row.data.v2 || v2 == row.data.aop))
  }

  /** `_get_record_by_v3`'s test on a `pid_versions` row of that v3. */
  predicate LegacyMatchesByV3(row: PidVersionRow, v2: string, aop: string)
  {
    (aop != "" && aop == row.v2) || (v2 != "" && v2 == row.v2)
  }

  /**
   * `_get_record_by_v3`: the first `pids` row with that v3 that shares a
   * filename, doi or PID with the arguments, else the first such
   * `pid_versions` row; nothing for an empty v3.
   */
  function RecordByV3(t: Tables, v3: string, v2: string, filename: string, doi: string, aop: string)
    : (r: Option<Registered>)
    ensures v3 == "" ==> r.None?
    ensures r.Some? && r.value.Current? ==>
      r.value.row in t.pids && r.value.row.data.v3 == v3 && MatchesByV3(r.value.row, v2, filename, doi, aop)
    ensures r.Some? && r.value.Legacy? ==>
      && r.value.legacy in t.pidVersions && r.value.legacy.v3 == v3 && LegacyMatchesByV3(r.value.legacy, v2, aop)
      && forall row :: row in t.pids && row.data.v3 == v3 ==> !MatchesByV3(row, v2, filename, doi, aop)
    ensures v3 != "" && r.None? ==>
      && (forall row :: row in t.pids && row.data.v3 == v3 ==> !MatchesByV3(row, v2, filename, doi, aop))
      && (forall row :: row in t.pidVersions && row.v3 == v3 ==> !LegacyMatchesByV3(row, v2, aop))
  {
    if v3 == "" then None
    else
      var current := Filter(t.pids, (row: PidRow) => row.data.v3 == v3);
      match First(current, (row: PidRow) => MatchesByV3(row, v2, filename, doi, aop))
      case Some(row) => Some(Current(row))
      case None =>
        var legacy := Filter(t.pidVersions, (row: PidVersionRow) => row.v3 == v3);
        match First(legacy, (row: PidVersionRow) => LegacyMatchesByV3(row, v2, aop))
        case Some(row) => Some(Legacy(row))
        case None => None
  }

  /** `_format_record`: v3 and v2, plus aop, doi, status and filename for a `pids` row. */
  datatype Formatted =
    | LegacyFormat(v3: string, v2: string)
    | CurrentFormat(v3: string, v2: string, aop: string, doi: string, status: string, filename: string)

  function FormatRecord(r: Registered): (f: Formatted)
    ensures f.CurrentFormat? <==> r.Current?
    ensures r.Legacy? ==> f == LegacyFormat(r.legacy.v3, r.legacy.v2)
    ensures r.Current? ==> f.v3 == r.row.data.v3 && f.v2 == r.row.data.v2 && f.aop == r.row.data.aop
    ensures r.Current? ==> f.doi == r.row.data.doi && f.status == r.row.data.status && f.filename == r.row.data.filename
  {
    match r
    case Legacy(row) => LegacyFormat(row.v3, row.v2)
    case Current(row) =>
      CurrentFormat(row.data.v3, row.data.v2, row.data.aop, row.data.doi, row.data.status, row.data.filename)
  }

  /** A `pids` or `pid_versions` row holds the v3 (the documents table is not consulted here). */
  predicate InPidTables(t: Tables, v3: string)
  {
    (exists row :: row in t.pids && row.data.v3 == v3) || (exists row :: row in t.pidVersions && row.v3 == v3)
  }

  /** What `manage` reports under 'error'. */
  datatype ManageError =
    | MissingV2        // "Manager.manage requires parameters: v2"
    | Rollback         // a unique constraint broke and the session rolled back
    | GeneratorFailed  // the v3 generator raised

  /**
   * `get_unique_v3`: the given v3, else a generated one, and then
   * generated ones for as long as the candidate is held by a PID table.
   */
  function UniqueV3(t: Tables, v3: string, tokens: seq<string>): (r: After<Result<string, ManageError>>)
    ensures r.tables == t
    ensures r.result.Success? ==> !InPidTables(t, r.result.value)
    ensures r.result.Success? && v3 != "" && !InPidTables(t, v3) ==> r.result.value == v3 && r.tokens == tokens
    ensures r.result.Success? && (v3 == "" || InPidTables(t, v3)) ==>
      exists i :: 0 <= i < |tokens| && r.result.value == tokens[i] && r.tokens == tokens[i + 1..] &&
        forall j :: 0 <= j < i ==> InPidTables(t, tokens[j])
    ensures r.result.Failure? ==> r.result.error == GeneratorFailed && r.tokens == []
    ensures r.result.Failure? <==> (v3 == "" || InPidTables(t, v3)) && forall i :: 0 <= i < |tokens| ==> InPidTables(t, tokens[i])
  {
    var candidates := if v3 != "" then [v3] + tokens else tokens;
    match FirstIndex(candidates, (c: string) => !InPidTables(t, c))
    case None => After(Failure(GeneratorFailed), t, [])
    case Some(i) =>
      assert v3 != "" && i > 0 ==> candidates[i] == tokens[i - 1] && candidates[i + 1..] == tokens[i..];
      assert v3 != "" ==> forall j :: 0 <= j < |tokens| ==> candidates[j + 1] == tokens[j];
      After(Success(candidates[i]), t, candidates[i + 1..])
  }

  /** The 'input' entry of `manage`'s result. */
  datatype ManageInput = ManageInput(v3: string, v2: string, aop: string, doi: string, filename: string, status: string)

  /** The 'saved' entry: the formatted new row, or the dict an update wrote. */
  datatype Saved = Created(record: Formatted) | Updated(data: PidData)

  /** `manage`'s result dict. */
  datatype ManageResult = ManageResult(
    input: ManageInput, registered: Option<Formatted>, warning: Option<string>,
    saved: Option<Saved>, error: Option<ManageError>)

  /** `_register(..., row=None)`: the new `pids` row. */
  function NewPidData(v2: string, v3: string, aop: string, filename: string, doi: string, status: string): PidData
  {
    PidData(v2, v3, aop, Prefix(filename, 80), DropLast(v2, 5), DropLast(aop, 5), doi, status)
  }

  /** `_register(..., row)`: each column takes the argument unless empty, v2 always the argument. */
  function UpdatedPidData(row: PidData, v2: string, v3: string, aop: string, filename: string, doi: string, status: string)
    : PidData
  {
    PidData(v2, OrElse(v3, row.v3), OrElse(aop, row.aop), OrElse(Prefix(filename, 80), row.filename),
            OrElse(DropLast(v2, 5), row.prefixV2), OrElse(DropLast(aop, 5), row.prefixAop),
            OrElse(doi, row.doi), OrElse(status, row.status))
  }

  /** What `manage` found: `_get_record`, then `_get_record_old`. */
  function FoundRecord(t: Tables, inp: ManageInput): Option<Registered>
  {
    match GetRecord(t.pids, inp.v2, inp.filename, inp.doi, inp.aop)
    case Some(row) => Some(Current(row))
    case None =>
      match OldRecord(t.pidVersions, inp.v2, inp.aop)
      case Some(row) => Some(Legacy(row))
      case None => None
  }

  /** The entries of the result set before anything is written. */
  predicate SameReport(a: ManageResult, b: ManageResult)
  {
    a.input == b.input && a.registered == b.registered && a.warning == b.warning
  }

  /** The create branch: 'saved' is set before the commit, which may roll back. */
  function CreatePid(t: Tables, tokens: seq<string>, res: ManageResult, v3: string): (r: After<ManageResult>)
    requires res.saved.None? && res.error.None?
    ensures SameReport(r.result, res) && r.tokens == tokens
    ensures r.result.saved ==
      Some(Created(CurrentFormat(v3, res.input.v2, res.input.aop, res.input.doi, res.input.status, Prefix(res.input.filename, 80))))
    ensures r.result.error.Some? <==> PidClash(t.pids, NewPidData(res.input.v2, v3, res.input.aop, res.input.filename, res.input.doi, res.input.status), None)
    ensures r.result.error.Some? ==> r.result.error == Some(Rollback) && r.tables == t
    ensures r.result.error.None? ==>
      exists row :: r.tables == t.(pids := t.pids + [row]) && row.data.v3 == v3 && forall x :: x in t.pids ==> x.id < row.id
  {
    var inp := res.input;
    var data := NewPidData(inp.v2, v3, inp.aop, inp.filename, inp.doi, inp.status);
    var res' := res.(saved := Some(Created(CurrentFormat(v3, inp.v2, inp.aop, inp.doi, inp.status, data.filename))));
    match InsertPid(t.pids, data)
    case Failure(_) => After(res'.(error := Some(Rollback)), t, tokens)
    case Success(row) => After(res', t.(pids := t.pids + [row]), tokens)
  }

  /** The update branch: the statement fails at once on a clash, before 'saved' is set. */
  function UpdateFound(t: Tables, tokens: seq<string>, res: ManageResult, row: PidRow): (r: After<ManageResult>)
    requires res.saved.None? && res.error.None?
    ensures SameReport(r.result, res) && r.tokens == tokens && r.tables.docs == t.docs && r.tables.pidVersions == t.pidVersions
    ensures var inp := res.input;
      var data := UpdatedPidData(row.data, inp.v2, inp.v3, inp.aop, inp.filename, inp.doi, inp.status);
      && (r.result.error.Some? <==> PidClash(t.pids, data, Some(row.id)))
      && (r.result.error.Some? ==> r.result.error == Some(Rollback) && r.result.saved.None? && r.tables == t)
      && (r.result.error.None? ==> r.result.saved == Some(Updated(data)) && r.tables.pids == UpdatePid(t.pids, row.id, data).value)
  {
    var inp := res.input;
    var data := UpdatedPidData(row.data, inp.v2, inp.v3, inp.aop, inp.filename, inp.doi, inp.status);
    match UpdatePid(t.pids, row.id, data)
    case Failure(_) => After(res.(error := Some(Rollback)), t, tokens)
    case Success(pids) => After(res.(saved := Some(Updated(data))), t.(pids := pids), tokens)
  }

  /** The branch for a document in neither table: allocate a v3, then create. */
  function CreateNew(t: Tables, tokens: seq<string>, res: ManageResult): (r: After<ManageResult>)
    requires res.saved.None? && res.error.None?
    ensures SameReport(r.result, res) && r.tables.docs == t.docs && r.tables.pidVersions == t.pidVersions
    ensures var u := UniqueV3(t, res.input.v3, tokens);
      && (u.result.Failure? ==> r == After(res.(error := Some(GeneratorFailed)), t, u.tokens))
      && (u.result.Success? ==> r == CreatePid(t, u.tokens, res, u.result.value))
  {
    var u := UniqueV3(t, res.input.v3, tokens);
    match u.result
    case Failure(e) => After(res.(error := Some(e)), t, u.tokens)
    case Success(v3) => CreatePid(t, u.tokens, res, v3)
  }

  /** `manage(v2, v3, aop, filename, doi, status, generate_v3)` */
  function ManageSpec(t: Tables, tokens: seq<string>, inp: ManageInput): After<ManageResult>
  {
    var base := ManageResult(inp, None, None, None, None);
    if inp.v2 == "" then After(base.(error := Some(MissingV2)), t, tokens)
    else
      var found := FoundRecord(t, inp);
      var res := base.(registered := if found.Some? then Some(FormatRecord(found.value)) else None,
                       warning := if |inp.filename| > 80 then Some(inp.filename) else None);
      match found
      case Some(Legacy(legacy)) => CreatePid(t, tokens, res, legacy.v3)
      case Some(Current(row)) => UpdateFound(t, tokens, res, row)
      case None => CreateNew(t, tokens, res)
  }

  /** Without a v2 nothing is looked up, written or drawn. */
  lemma ManageRequiresV2(t: Tables, tokens: seq<string>, inp: ManageInput)
    requires inp.v2 == ""
    ensures ManageSpec(t, tokens, inp) == After(ManageResult(inp, None, None, None, Some(MissingV2)), t, tokens)
  {
  }

  /**
   * The result echoes the input; a warning carries the filename exactly
   * when it is over 80 characters; 'registered' is what the lookups found.
   */
  lemma ManageReports(t: Tables, tokens: seq<string>, inp: ManageInput)
    requires inp.v2 != ""
    ensures var m := ManageSpec(t, tokens, inp).result;
      && m.input == inp
      && (m.warning.Some? <==> |inp.filename| > 80)
      && (m.warning.Some? ==> m.warning.value == inp.filename)
      && (m.registered.Some? <==> FoundRecord(t, inp).Some?)
      && (m.registered.Some? ==> m.registered.value == FormatRecord(FoundRecord(t, inp).value))
  {
  }

  /**
   * `manage` never touches `docs` or `pid_versions`; an error leaves
   * every table as it was; otherwise it appended one `pids` row or
   * rewrote the found one in place.
   */
  lemma ManageTableEffect(t: Tables, tokens: seq<string>, inp: ManageInput)
    ensures var m := ManageSpec(t, tokens, inp);
      && m.tables.docs == t.docs && m.tables.pidVersions == t.pidVersions
      && (m.result.error.Some? ==> m.tables == t)
      && (m.result.error.None? ==> m.result.saved.Some?)
      && (m.result.saved.Some? && m.result.saved.value.Created? && m.result.error.None? ==>
            exists row :: m.tables.pids == t.pids + [row] && row.data.v3 == m.result.saved.value.record.v3 &&
              forall x :: x in t.pids ==> x.id < row.id)
      && (m.result.saved.Some? && m.result.saved.value.Updated? ==>
            && FoundRecord(t, inp).Some? && FoundRecord(t, inp).value.Current?
            && |m.tables.pids| == |t.pids|
            && forall i :: 0 <= i < |t.pids| ==>
                 m.tables.pids[i] == if t.pids[i].id == FoundRecord(t, inp).value.row.id
                                     then PidRow(t.pids[i].id, m.result.saved.value.data) else t.pids[i])
  {
  }

  /**
   * A document in neither table gets a v3 that no PID table held: the
   * given one when free, otherwise a generated one; a legacy match
   * migrates its v3 to `pids` without drawing.
   */
  lemma ManageAllocatesFreeV3(t: Tables, tokens: seq<string>, inp: ManageInput)
    requires inp.v2 != ""
    ensures var m := ManageSpec(t, tokens, inp);
      && (FoundRecord(t, inp).None? && m.result.saved.Some? ==>
            && !InPidTables(t, m.result.saved.value.record.v3)
            && (inp.v3 != "" && !InPidTables(t, inp.v3) ==> m.result.saved.value.record.v3 == inp.v3))
      && (FoundRecord(t, inp).None? && m.result.saved.None? ==> m.result.error == Some(GeneratorFailed))
      && (FoundRecord(t, inp).Some? && FoundRecord(t, inp).value.Legacy? ==>
            && m.tokens == tokens
            && m.result.saved == Some(Created(CurrentFormat(FoundRecord(t, inp).value.legacy.v3, inp.v2, inp.aop,
                                                              inp.doi, inp.status, Prefix(inp.filename, 80)))))
  {
  }

  /**
   * An update merges: v2 and every non-empty argument win, empty
   * arguments keep the row's column. In particular a non-empty v3
   * argument replaces the v3 of the row that was found.
   */
  lemma UpdateMergesArguments(t: Tables, tokens: seq<string>, inp: ManageInput, row: PidRow)
    requires inp.v2 != "" && GetRecord(t.pids, inp.v2, inp.filename, inp.doi, inp.aop) == Some(row)
    ensures var m := ManageSpec(t, tokens, inp);
      && m.tokens == tokens
      && (m.result.error.None? ==> m.result.saved.Some? && m.result.saved.value.Updated?)
      && (m.result.saved.Some? ==>
            var d := m.result.saved.value.data;
            && d.v2 == inp.v2
            && d.v3 == (if inp.v3 != "" then inp.v3 else row.data.v3)
            && d.aop == (if inp.aop != "" then inp.aop else row.data.aop)
            && d.doi == (if inp.doi != "" then inp.doi else row.data.doi)
            && d.status == (if inp.status != "" then inp.status else row.data.status)
            && d.filename == (if inp.filename != "" then Prefix(inp.filename, 80) else row.data.filename))
      && (m.result.error.Some? <==>
            PidClash(t.pids, UpdatedPidData(row.data, inp.v2, inp.v3, inp.aop, inp.filename, inp.doi, inp.status), Some(row.id)))
  {
  }
}
