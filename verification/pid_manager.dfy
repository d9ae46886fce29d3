/**
 * The two classes of scielo_v3_manager/pid_manager.py as objects over a
 * shared `Database` and a `TokenSupply` standing for `generate_v3`:
 * `DocManager` (normalised input, v3 allocation, `manage_docs`) and
 * `Manager` (`manage` over the PID tables). Every method is proved to
 * agree with the functions of `Normalizer`, `Registration` and
 * `PidsRegistrar`, where the properties are proved.
 */
module PidManager {
  import opened Wrappers
  import opened Text
  import opened Seqs
  import opened Schema
  import opened Generator
  import opened Normalizer
  import opened Matcher
  import opened Registration
  import opened PidsRegistrar

  class DocManager {
    const session: Database
    const generateV3: TokenSupply
    var inputData: DocData

    /** `DocManager(session, generate_v3, ...)`: keeps the session and generator, loads the input. */
    constructor (session: Database, generateV3: TokenSupply, raw: RawInput)
      ensures this.session == session && this.generateV3 == generateV3
      ensures inputData == Normalize(raw)
    {
      this.session := session;
      this.generateV3 := generateV3;
      new;
      LoadInput(raw);
    }

    /** `_load_input`: the truncated, defaulted dict, then the UPPER_CONTENTS loop. */
    method LoadInput(raw: RawInput)
      modifies this
      ensures inputData == Normalize(raw)
    {
      var loaded := Loaded(raw);
      var d := loaded;
      for i := 0 to |UpperContents|
        invariant forall k :: Get(d, k) == if k in UpperContents[..i] then Upper(Get(loaded, k)) else Get(loaded, k)
      {
        var key := UpperContents[i];
        assert UpperContents[..i + 1] == UpperContents[..i] + [key];
        UpperIsUpper(Get(loaded, key));
        d := Set(d, key, Upper(Get(d, key)));
      }
      assert UpperContents[..|UpperContents|] == UpperContents;
      NormalizeUpperCasesExactly(raw);
      GetExtensional(d, Normalize(raw));
      inputData := d;
    }

    /** `_get_unique_v3`: draw until a token no table holds; `None` when the generator raises. */
    method GetUniqueV3() returns (r: Option<string>)
      modifies generateV3
      ensures var f := FirstUnregistered(session.Snapshot(), old(generateV3.tokens));
        && (f.None? ==> r.None? && generateV3.tokens == [])
        && (f.Some? ==> r == Some(old(generateV3.tokens)[f.value]) &&
                        generateV3.tokens == old(generateV3.tokens)[f.value + 1..])
    {
      ghost var t, tokens := session.Snapshot(), generateV3.tokens;
      ghost var n := 0;
      while true
        invariant 0 <= n <= |tokens| && generateV3.tokens == tokens[n..]
        invariant forall i :: 0 <= i < n ==> V3Registered(t, tokens[i])
        decreases |generateV3.tokens|
      {
        var generated := generateV3.Next();
        if generated.None? {
          return None;
        }
        if !V3Registered(session.Snapshot(), generated.value) {
          return generated;
        }
        n := n + 1;
      }
    }

    /** `_prepare_record_to_save(data, recovered_data)` */
    method PrepareRecordToSave(data: DocData, recovered: Option<Fragment>) returns (r: Result<DocData, ErrorKind>)
      modifies generateV3
      ensures After(r, session.Snapshot(), generateV3.tokens) ==
        Prepare(session.Snapshot(), old(generateV3.tokens), data, recovered)
    {
      var d := data;
      if (recovered.None? || recovered.value.v3 == "") && (d.v3 == "" || V3Registered(session.Snapshot(), d.v3)) {
        var generated := GetUniqueV3();
        if generated.None? {
          return Failure(ErrorKind.GeneratorFailed);
        }
        d := d.(v3 := generated.value, v3Origin := "generated");
      }
      r := Success(Merge(d, recovered));
    }

    /** `_save_record(data)`: insert, or fail on the (v2, v3) constraint and roll back. */
    method SaveRecord(data: DocData) returns (r: Result<DocRow, ErrorKind>)
      modifies session
      ensures r.Success? <==> InsertDoc(old(session.docs), data).Success?
      ensures r.Success? ==> r.value == InsertDoc(old(session.docs), data).value
      ensures r.Failure? ==> r.error == AlreadyRegisteredDocument
      ensures session.Snapshot() ==
        if r.Success? then old(session.Snapshot()).(docs := old(session.docs) + [r.value]) else old(session.Snapshot())
    {
      var inserted := session.AddDoc(data);
      if inserted.Failure? {
        return Failure(AlreadyRegisteredDocument);
      }
      r := Success(inserted.value);
    }

    /** `_register_doc(recovered_data)`: prepare a copy of the input and save it. */
    method RegisterDoc(recovered: Option<Fragment>) returns (r: Result<DocRow, ErrorKind>)
      modifies session, generateV3
      ensures After(r, session.Snapshot(), generateV3.tokens) ==
        Registration.RegisterDoc(old(session.Snapshot()), old(generateV3.tokens), inputData, recovered)
    {
      var prepared := PrepareRecordToSave(inputData, recovered);
      if prepared.Failure? {
        return Failure(prepared.error);
      }
      r := SaveRecord(prepared.value);
    }

    /** `manage_docs` */
    method ManageDocs() returns (o: Outcome)
      modifies session, generateV3
      ensures After(o, session.Snapshot(), generateV3.tokens) ==
        ManageDocsSpec(old(session.Snapshot()), old(generateV3.tokens), inputData)
    {
      var t := session.Snapshot();
      var recovered: Option<Fragment> := None;
      var entry: Option<ExceptionEntry> := None;
      var registered := IssueLookup(t.docs, inputData, inputData.v2);
      if registered.None? {
        registered := IssueLookup(t.docs, inputData, "");
      }
      assert registered == IssueMatch(t.docs, inputData);
      if registered.None? {
        match Recover(t, inputData)
        case Ambiguous(ids) => entry := Some(ExceptionEntry(QueryingAction, MoreThanOneRecordFound(ids)));
        case Recovered(f) => recovered := Some(f);
        case NothingRecovered =>
      }
      if registered.Some? {
        var hit := registered.value;
        if inputData.v2 == hit.data.v2 {
          return Returned(Response(inputData, Some(AsDict(hit)), None, None));
        }
        var created := RegisterDoc(Some(HitFragment(hit)));
        if created.Failure? {
          return Raised(created.error);
        }
        return Returned(Response(inputData, None, Some(AsDict(created.value)), None));
      }
      var rec := Recover(t, inputData);
      assert recovered == if rec.Recovered? then Some(rec.fragment) else None;
      assert entry == if rec.Ambiguous? then Some(ExceptionEntry(QueryingAction, MoreThanOneRecordFound(rec.ids))) else None;
      var created := RegisterDoc(recovered);
      match created
      case Success(row) => o := Returned(Response(inputData, None, Some(AsDict(row)), entry));
      case Failure(AlreadyRegisteredDocument) => o := Returned(Response(inputData, None, None, entry));
      case Failure(e) => o := Returned(Response(inputData, None, None, Some(ExceptionEntry(RegisteringAction, e))));
    }
  }

  /** `Manager`: the PID registrar, over the database its engine connects to. */
  class Manager {
    const db: Database

    constructor (db: Database)
      ensures this.db == db
    {
      this.db := db;
    }

    /** `manage_docs(generate_v3, ...)`: a `DocManager` on this database, in one session. */
    method ManageDocs(generateV3: TokenSupply, raw: RawInput) returns (o: Outcome)
      modifies db, generateV3
      ensures After(o, db.Snapshot(), generateV3.tokens) ==
        ManageDocsSpec(old(db.Snapshot()), old(generateV3.tokens), Normalize(raw))
    {
      var docManager := new DocManager(db, generateV3, raw);
      o := docManager.ManageDocs();
    }

    /** `_get_record_old`: scan the legacy rows of the aop, then of the v2, keeping strictly higher ids. */
    method GetRecordOld(v2: string, aop: string) returns (record: Option<PidVersionRow>)
      ensures record == OldRecord(db.pidVersions, v2, aop)
    {
      var i := 0;
      record := None;
      var first: seq<PidVersionRow> := [];
      if aop != "" {
        first := Filter(db.pidVersions, (row: PidVersionRow) => row.v2 == aop);
        for k := 0 to |first|
          invariant Scan(i, record) == ScanRows(first[..k], Scan(0, None))
        {
          assert first[..k + 1][..k] == first[..k];
          if first[k].id > i {
            i := first[k].id;
            record := Some(first[k]);
          }
        }
        assert first[..|first|] == first;
      }
      ghost var middle := Scan(i, record);
      var second: seq<PidVersionRow> := [];
      if v2 != "" {
        second := Filter(db.pidVersions, (row: PidVersionRow) => row.v2 == v2);
        for k := 0 to |second|
          invariant Scan(i, record) == ScanRows(second[..k], middle)
        {
          assert second[..k + 1][..k] == second[..k];
          if second[k].id > i {
            i := second[k].id;
            record := Some(second[k]);
          }
        }
        assert second[..|second|] == second;
      }
      ScanRowsAppend(first, second, Scan(0, None));
    }

    /** `_get_record_by_v3`: the first matching `pids` row of that v3, else the first matching legacy row. */
    method GetRecordByV3(v3: string, v2: string, filename: string, doi: string, aop: string)
      returns (r: Option<Registered>)
      ensures r == RecordByV3(db.Snapshot(), v3, v2, filename, doi, aop)
    {
      if v3 == "" {
        return None;
      }
      var current := Filter(db.pids, (row: PidRow) => row.data.v3 == v3);
      for k := 0 to |current|
        invariant forall j :: 0 <= j < k ==> !MatchesByV3(current[j], v2, filename, doi, aop)
      {
        if MatchesByV3(current[k], v2, filename, doi, aop) {
          FirstAt(current, (row: PidRow) => MatchesByV3(row, v2, filename, doi, aop), k);
          return Some(Current(current[k]));
        }
      }
      var legacy := Filter(db.pidVersions, (row: PidVersionRow) => row.v3 == v3);
      for k := 0 to |legacy|
        invariant forall j :: 0 <= j < k ==> !LegacyMatchesByV3(legacy[j], v2, aop)
      {
        if LegacyMatchesByV3(legacy[k], v2, aop) {
          FirstAt(legacy, (row: PidVersionRow) => LegacyMatchesByV3(row, v2, aop), k);
          return Some(Legacy(legacy[k]));
        }
      }
      r := None;
    }

    /** `get_unique_v3(session, v3, generate_v3)` */
    method GetUniqueV3(v3: string, generateV3: TokenSupply) returns (r: Result<string, ManageError>)
      modifies generateV3
      ensures After(r, db.Snapshot(), generateV3.tokens) == UniqueV3(db.Snapshot(), v3, old(generateV3.tokens))
    {
      ghost var t := db.Snapshot();
      ghost var candidates := if v3 != "" then [v3] + generateV3.tokens else generateV3.tokens;
      var unique: string;
      if v3 != "" {
        unique := v3;
      } else {
        var generated := generateV3.Next();
        if generated.None? {
          return Failure(ManageError.GeneratorFailed);
        }
        unique := generated.value;
      }
      ghost var n := 0;
      while true
        invariant n < |candidates| && unique == candidates[n] && generateV3.tokens == candidates[n + 1..]
        invariant forall j :: 0 <= j < n ==> InPidTables(t, candidates[j])
        decreases |generateV3.tokens|
      {
        if !InPidTables(db.Snapshot(), unique) {
          return Success(unique);
        }
        var generated := generateV3.Next();
        if generated.None? {
          return Failure(ManageError.GeneratorFailed);
        }
        unique := generated.value;
        n := n + 1;
      }
    }

    /**
     * `_register(session, v2, v3, ..., row)`: create a `pids` row, or
     * update the given one; `committed` is false when the unique
     * constraints made the session roll back.
     */
    method Register(inp: ManageInput, v3: string, row: Option<PidRow>) returns (saved: Option<Saved>, committed: bool)
      modifies db
      ensures db.docs == old(db.docs) && db.pidVersions == old(db.pidVersions)
      ensures row.None? ==>
        var data := NewPidData(inp.v2, v3, inp.aop, inp.filename, inp.doi, inp.status);
        && saved == Some(Created(CurrentFormat(v3, inp.v2, inp.aop, inp.doi, inp.status, data.filename)))
        && committed == InsertPid(old(db.pids), data).Success?
        && db.pids == if committed then old(db.pids) + [InsertPid(old(db.pids), data).value] else old(db.pids)
      ensures row.Some? ==>
        var data := UpdatedPidData(row.value.data, inp.v2, inp.v3, inp.aop, inp.filename, inp.doi, inp.status);
        && committed == UpdatePid(old(db.pids), row.value.id, data).Success?
        && saved == (if committed then Some(Updated(data)) else None)
        && db.pids == if committed then UpdatePid(old(db.pids), row.value.id, data).value else old(db.pids)
    {
      if row.Some? {
        var data := UpdatedPidData(row.value.data, inp.v2, inp.v3, inp.aop, inp.filename, inp.doi, inp.status);
        committed := db.SetPid(row.value.id, data);
        saved := if committed then Some(Updated(data)) else None;
      } else {
        var data := NewPidData(inp.v2, v3, inp.aop, inp.filename, inp.doi, inp.status);
        saved := Some(Created(CurrentFormat(v3, inp.v2, inp.aop, inp.doi, inp.status, data.filename)));
        var inserted := db.AddPid(data);
        committed := inserted.Success?;
      }
    }

    /** `manage(v2, v3, aop, filename, doi, status, generate_v3)` */
    method Manage(inp: ManageInput, generateV3: TokenSupply) returns (result: ManageResult)
      modifies db, generateV3
      ensures After(result, db.Snapshot(), generateV3.tokens) ==
        ManageSpec(old(db.Snapshot()), old(generateV3.tokens), inp)
    {
      result := ManageResult(inp, None, None, None, None);
      if inp.v2 == "" {
        return result.(error := Some(MissingV2));
      }
      var t := db.Snapshot();
      var registered: Option<Registered> := None;
      var row := GetRecord(db.pids, inp.v2, inp.filename, inp.doi, inp.aop);
      if row.Some? {
        registered := Some(Current(row.value));
      }
      if registered.None? {
        var legacy := GetRecordOld(inp.v2, inp.aop);
        if legacy.Some? {
          registered := Some(Legacy(legacy.value));
        }
      }
      assert registered == FoundRecord(t, inp);
      if registered.Some? {
        result := result.(registered := Some(FormatRecord(registered.value)));
      }
      if |inp.filename| > 80 {
        result := result.(warning := Some(inp.filename));
      }
      var saved: Option<Saved>;
      var committed: bool;
      ghost var reported, tokens := result, generateV3.tokens;
      match registered {
      case Some(Legacy(legacy)) =>
        saved, committed := Register(inp, legacy.v3, None);
        ghost var expected := CreatePid(t, tokens, reported, legacy.v3);
        assert committed <==> expected.result.error.None?;
      case Some(Current(row)) =>
        saved, committed := Register(inp, inp.v3, Some(row));
        ghost var expected := UpdateFound(t, tokens, reported, row);
        assert committed <==> expected.result.error.None?;
      case None =>
        var unique := GetUniqueV3(inp.v3, generateV3);
        if unique.Failure? {
          return result.(error := Some(unique.error));
        }
        saved, committed := Register(inp, unique.value, None);
        ghost var expected := CreatePid(t, generateV3.tokens, reported, unique.value);
        assert committed <==> expected.result.error.None?;
      }
      result := result.(saved := saved);
      if !committed {
        result := result.(error := Some(Rollback));
      }
    }
  }
}
