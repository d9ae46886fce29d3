/**
 * The lookups and the registration of the MongoDB-era helpers
 * (scielo_v3_manager/manage.py; scielo_v3_manager/manager.py repeats the
 * lookups word for word). A `DocsIds.objects(...)` query is the records of
 * the collection that satisfy it, in stored order; a query set is true when
 * it is not empty, and `x or y` gives `x` when `x` is true and `y` otherwise.
 */
module MongoManage {
  import opened Wrappers
  import opened Text
  import opened Seqs
  import opened Models
  import opened Generator

  /** `a or b` over two query sets. */
  function OrQuery(a: seq<DocsRecord>, b: seq<DocsRecord>): seq<DocsRecord>
  {
    if a != [] then a else b
  }

  /** The value of a lookup is true: it ran and found something. */
  predicate Truthy(r: Option<seq<DocsRecord>>)
  {
    r.Some? && r.value != []
  }

  /** `get_by_doi`: None for an empty doi, else the records with that doi and filename, else those with that doi. */
  function GetByDoi(records: seq<DocsRecord>, doi: string, filename: string): Option<seq<DocsRecord>>
  {
    if doi == "" then None
    else
      Some(OrQuery(
        Filter(records, (x: DocsRecord) => x.doi == doi && x.filename == filename),
        Filter(records, (x: DocsRecord) => x.doi == doi)))
  }

  /** A record names `v3` as its key, its v3 or one of its other pids. */
  predicate NamesV3(x: DocsRecord, v3: string)
  {
    x.id == v3 || x.v3 == v3 || v3 in x.others
  }

  /** `get_by_v3`: None for an empty v3, else the first non-empty of: key, v3, other pids. */
  function GetByV3(records: seq<DocsRecord>, v3: string): Option<seq<DocsRecord>>
  {
    if v3 == "" then None
    else
      Some(OrQuery(
        Filter(records, (x: DocsRecord) => x.id == v3),
        OrQuery(
          Filter(records, (x: DocsRecord) => x.v3 == v3),
          Filter(records, (x: DocsRecord) => v3 in x.others))))
  }

  /** A record of file `filename` that carries `code` as prefix, v2, aop or other pid. */
  predicate NamesCode(x: DocsRecord, code: string, filename: string)
  {
    x.filename == filename
    && (DropLast(code, 5) in x.prefixes || x.v2 == code || x.aop == code || code in x.others)
  }

  /** `get_by_v2`: None for an empty code, else the first non-empty of four queries, all with the same filename. */
  function GetByV2(records: seq<DocsRecord>, code: string, filename: string): Option<seq<DocsRecord>>
  {
    if code == "" then None
    else
      Some(OrQuery(
        Filter(records, (x: DocsRecord) => DropLast(code, 5) in x.prefixes && x.filename == filename),
        OrQuery(
          Filter(records, (x: DocsRecord) => x.v2 == code && x.filename == filename),
          OrQuery(
            Filter(records, (x: DocsRecord) => x.aop == code && x.filename == filename),
            Filter(records, (x: DocsRecord) => code in x.others && x.filename == filename)))))
  }

  /** `get_by_doi(...) or get_by_v2(aop, ...) or get_by_v2(v2, ...) or get_by_v3(v3) or []` */
  function Candidates(records: seq<DocsRecord>, doi: string, filename: string, v2: string, aop: string, v3: string): seq<DocsRecord>
  {
    var byDoi := GetByDoi(records, doi, filename);
    var byAop := GetByV2(records, aop, filename);
    var byV2 := GetByV2(records, v2, filename);
    var byV3 := GetByV3(records, v3);
    if Truthy(byDoi) then byDoi.value
    else if Truthy(byAop) then byAop.value
    else if Truthy(byV2) then byV2.value
    else if Truthy(byV3) then byV3.value
    else []
  }

  /** `[i for i in (v2, aop) if i]` */
  function Codes(v2: string, aop: string): seq<string>
  {
    (if v2 != "" then [v2] else []) + (if aop != "" then [aop] else [])
  }

  /** The test `get` applies to each candidate; a missing v3 never equals a stored key. */
  predicate Accepts(x: DocsRecord, v2: string, aop: string, v3: string)
  {
    x.v2 in Codes(v2, aop) || x.aop in Codes(v2, aop) || (v3 != "" && x.id == v3)
  }

  /** `get`: the first candidate that `Accepts`, or None. */
  function Get(records: seq<DocsRecord>, doi: string, filename: string, v2: string, aop: string, v3: string): Option<DocsRecord>
  {
    First(Candidates(records, doi, filename, v2, aop, v3), (x: DocsRecord) => Accepts(x, v2, aop, v3))
  }

  lemma OrQueryMeaning(a: seq<DocsRecord>, b: seq<DocsRecord>)
    ensures forall x :: x in OrQuery(a, b) ==> x in a || x in b
    ensures OrQuery(a, b) == [] <==> a == [] && b == []
  {
  }

  /** A query set is empty exactly when nothing satisfies the query. */
  lemma EmptyFilter(records: seq<DocsRecord>, p: DocsRecord -> bool)
    ensures Filter(records, p) == [] <==> forall x :: x in records ==> !p(x)
  {
    var r := Filter(records, p);
    if r != [] {
      assert r[0] in r;
    }
  }

  /**
   * `get_by_doi` finds nothing for an empty doi; otherwise it returns only
   * records with that doi, returns some whenever one exists, and keeps to
   * the given filename whenever a record has both.
   */
  lemma GetByDoiMeaning(records: seq<DocsRecord>, doi: string, filename: string)
    ensures GetByDoi(records, doi, filename).None? <==> doi == ""
    ensures doi != "" ==>
      var r := GetByDoi(records, doi, filename).value;
      && (forall x :: x in r ==> x in records && x.doi == doi)
      && (r == [] <==> forall x :: x in records ==> x.doi != doi)
      && ((exists x :: x in records && x.doi == doi && x.filename == filename) ==> forall x :: x in r ==> x.filename == filename)
  {
    if doi != "" {
      var both := Filter(records, (x: DocsRecord) => x.doi == doi && x.filename == filename);
      var any := Filter(records, (x: DocsRecord) => x.doi == doi);
      var r := GetByDoi(records, doi, filename).value;
      OrQueryMeaning(both, any);
      EmptyFilter(records, (x: DocsRecord) => x.doi == doi);
      EmptyFilter(records, (x: DocsRecord) => x.doi == doi && x.filename == filename);
      assert forall x :: x in r ==> x in records && x.doi == doi;
      if exists x :: x in records && x.doi == doi && x.filename == filename {
        var w :| w in records && w.doi == doi && w.filename == filename;
        assert w in both;
      }
      if exists x :: x in records && x.doi == doi {
        var w :| w in records && w.doi == doi;
        assert w in any;
      }
    }
  }

  /**
   * `get_by_v3` finds nothing for an empty v3; otherwise it returns only
   * records that name v3, some whenever one does, and only records keyed
   * by v3 whenever one is.
   */
  lemma GetByV3Meaning(records: seq<DocsRecord>, v3: string)
    ensures GetByV3(records, v3).None? <==> v3 == ""
    ensures v3 != "" ==>
      var r := GetByV3(records, v3).value;
      && (forall x :: x in r ==> x in records && NamesV3(x, v3))
      && (r == [] <==> forall x :: x in records ==> !NamesV3(x, v3))
      && ((exists x :: x in records && x.id == v3) ==> forall x :: x in r ==> x.id == v3)
  {
    if v3 != "" {
      var byId := Filter(records, (x: DocsRecord) => x.id == v3);
      var byV3 := Filter(records, (x: DocsRecord) => x.v3 == v3);
      var byOthers := Filter(records, (x: DocsRecord) => v3 in x.others);
      var r := GetByV3(records, v3).value;
      OrQueryMeaning(byId, OrQuery(byV3, byOthers));
      OrQueryMeaning(byV3, byOthers);
      EmptyFilter(records, (x: DocsRecord) => x.id == v3);
      EmptyFilter(records, (x: DocsRecord) => x.v3 == v3);
      EmptyFilter(records, (x: DocsRecord) => v3 in x.others);
      assert forall x :: x in r ==> x in records && NamesV3(x, v3);
      if exists x :: x in records && NamesV3(x, v3) {
        var w :| w in records && NamesV3(w, v3);
        if w.id == v3 {
          assert w in byId;
        } else if w.v3 == v3 {
          assert w in byV3;
        } else {
          assert w in byOthers;
        }
      }
    }
  }

  /**
   * `get_by_v2` finds nothing for an empty code; otherwise it returns only
   * records of the same file that carry the code, and some whenever one
   * does.
   */
  lemma GetByV2Meaning(records: seq<DocsRecord>, code: string, filename: string)
    ensures GetByV2(records, code, filename).None? <==> code == ""
    ensures code != "" ==>
      var r := GetByV2(records, code, filename).value;
      && (forall x :: x in r ==> x in records && NamesCode(x, code, filename))
      && (r == [] <==> forall x :: x in records ==> !NamesCode(x, code, filename))
  {
    if code != "" {
      var byPrefix := Filter(records, (x: DocsRecord) => DropLast(code, 5) in x.prefixes && x.filename == filename);
      var byV2 := Filter(records, (x: DocsRecord) => x.v2 == code && x.filename == filename);
      var byAop := Filter(records, (x: DocsRecord) => x.aop == code && x.filename == filename);
      var byOthers := Filter(records, (x: DocsRecord) => code in x.others && x.filename == filename);
      var r := GetByV2(records, code, filename).value;
      OrQueryMeaning(byPrefix, OrQuery(byV2, OrQuery(byAop, byOthers)));
      OrQueryMeaning(byV2, OrQuery(byAop, byOthers));
      OrQueryMeaning(byAop, byOthers);
      EmptyFilter(records, (x: DocsRecord) => DropLast(code, 5) in x.prefixes && x.filename == filename);
      EmptyFilter(records, (x: DocsRecord) => x.v2 == code && x.filename == filename);
      EmptyFilter(records, (x: DocsRecord) => x.aop == code && x.filename == filename);
      EmptyFilter(records, (x: DocsRecord) => code in x.others && x.filename == filename);
      assert forall x :: x in r ==> x in records && NamesCode(x, code, filename);
      if exists x :: x in records && NamesCode(x, code, filename) {
        var w :| w in records && NamesCode(w, code, filename);
        if DropLast(code, 5) in w.prefixes {
          assert w in byPrefix;
        } else if w.v2 == code {
          assert w in byV2;
        } else if w.aop == code {
          assert w in byAop;
        } else {
          assert w in byOthers;
        }
      }
    }
  }

  /**
   * `get` returns a stored record that passes its test, taken from the
   * first lookup that found anything (doi, then aop, then v2, then v3);
   * it returns None exactly when no record of that lookup passes, whatever
   * the later lookups would have found.
   */
  lemma GetMeaning(records: seq<DocsRecord>, doi: string, filename: string, v2: string, aop: string, v3: string)
    ensures var r := Get(records, doi, filename, v2, aop, v3);
      && (r.Some? ==> r.value in records && Accepts(r.value, v2, aop, v3))
      && (r.None? <==> forall x :: x in Candidates(records, doi, filename, v2, aop, v3) ==> !Accepts(x, v2, aop, v3))
    ensures Truthy(GetByDoi(records, doi, filename)) ==>
      Get(records, doi, filename, v2, aop, v3) == First(GetByDoi(records, doi, filename).value, (x: DocsRecord) => Accepts(x, v2, aop, v3))
  {
    GetByDoiMeaning(records, doi, filename);
    GetByV2Meaning(records, aop, filename);
    GetByV2Meaning(records, v2, filename);
    GetByV3Meaning(records, v3);
  }

  /** Two records of one file: the first found by doi, the second by its v2. */
  const ByDoi := DocsRecord("k1", "", "BBBBBB", "V1", "", [], "10.1/x", "f", ["B"], map[], "active")
  const ByCode := DocsRecord("k2", "", "AAAAAA", "V2", "", [], "", "f", ["A"], map[], "active")

  /**
   * `get` can miss a record a later lookup finds: the doi lookup finds a
   * record that fails the test, so the v2 lookup, whose record passes it,
   * is never consulted.
   */
  lemma GetCanMissALaterMatch()
    ensures Get([ByDoi, ByCode], "10.1/x", "f", "AAAAAA", "", "") == None
    ensures GetByV2([ByDoi, ByCode], "AAAAAA", "f") == Some([ByCode])
    ensures Accepts(ByCode, "AAAAAA", "", "")
  {
    var records := [ByDoi, ByCode];
    assert DropLast("AAAAAA", 5) == "A";
    assert records[1..] == [ByCode];
    assert Filter(records, (x: DocsRecord) => x.doi == "10.1/x" && x.filename == "f") == [ByDoi];
    assert Candidates(records, "10.1/x", "f", "AAAAAA", "", "") == [ByDoi];
    assert Filter(records, (x: DocsRecord) => DropLast("AAAAAA", 5) in x.prefixes && x.filename == "f") == [ByCode];
  }

  /** What `_update` leaves in a record: every field taken from the arguments, keyed by v3. */
  function Overwritten(a: DocsArgs): DocsRecord
  {
    DocsRecord(a.v3, a.v1, a.v2, a.v3, a.aop, a.others, a.doi, a.filename, Prefixes(a.v2, a.aop), a.fields,
               OrElse(a.status, "active"))
  }

  /**
   * `_update` builds the record `create_obj` would build with v3 as its
   * key; unlike `complete_data` it keeps nothing of what was there, and the
   * two agree only when every argument is given and the key is already v3.
   */
  lemma OverwrittenIsCreateObj(a: DocsArgs, r: DocsRecord)
    ensures a.v2 != "" && a.v3 != "" ==> CreateObj(a.(id := a.v3)) == Success(Overwritten(a))
    ensures Overwritten(a).id == a.v3 && Overwritten(a).status != ""
    ensures a.v1 != "" && a.v2 != "" && a.v3 != "" && a.aop != "" && a.others != [] && a.fields != map[]
      && a.doi != "" && a.filename != "" && a.status != "" && r.id == a.v3
      ==> Completed(r, a) == Overwritten(a)
  {
  }

  /** `_update(record, ...)`: the ValueError, or every field of the record overwritten. */
  method Update(record: DocsIds, a: DocsArgs) returns (error: Option<ValueError>)
    modifies record
    ensures error.Some? <==> a.v2 == "" || a.v3 == ""
    ensures error.Some? ==> error.value == MissingV2OrV3(a.v2, a.v3) && record.Value() == old(record.Value())
    ensures error.None? ==> record.Value() == Overwritten(a)
  {
    if a.v3 == "" || a.v2 == "" {
      return Some(MissingV2OrV3(a.v2, a.v3));
    }
    record.id := a.v3;
    record.doi := a.doi;
    record.filename := a.filename;
    record.v1 := OrElse(a.v1, "");
    record.v2 := a.v2;
    record.v3 := a.v3;
    record.aop := OrElse(a.aop, "");
    record.others := a.others;
    record.fields := a.fields;
    record.status := OrElse(a.status, "active");
    record.prefixes := Prefixes(a.v2, a.aop);
    error := None;
  }

  /** Why `register` fails: the ValueError of `_update`, or the generator raising. */
  datatype RegisterError = Invalid(error: ValueError) | GeneratorRaised

  /** The outcome of `register`, the collection after it and the generator's remaining tokens (None: no generator). */
  datatype Registration = Registration(result: Result<DocsRecord, RegisterError>, records: seq<DocsRecord>, supply: Option<seq<string>>)

  /**
   * `register(doi, filename, v2, aop, v3, ...)`: v3 is the given one, else
   * the generator's next token; the record is then overwritten and saved.
   * The `_id` slot of the arguments is not read.
   */
  function RegisterSpec(records: seq<DocsRecord>, supply: Option<seq<string>>, a: DocsArgs): Registration
  {
    if a.v3 == "" && supply.Some? && supply.value == [] then
      Registration(Failure(GeneratorRaised), records, supply)
    else
      var draw := a.v3 == "" && supply.Some?;
      var v3 := if draw then supply.value[0] else a.v3;
      var rest := if draw then Some(supply.value[1..]) else supply;
      if v3 == "" || a.v2 == "" then Registration(Failure(Invalid(MissingV2OrV3(a.v2, v3))), records, rest)
      else
        var saved := Overwritten(a.(v3 := v3));
        Registration(Success(saved), Upsert(records, saved), rest)
  }

  /**
   * `register` writes the supplied v3, or the generator's next token when
   * none is supplied, never the found record's own v3; without either it
   * fails with the ValueError. It draws at most one token, saves only on
   * success, and what it saves does not depend on what `get` found.
   */
  lemma RegisterMeaning(records: seq<DocsRecord>, supply: Option<seq<string>>, a: DocsArgs, other: seq<DocsRecord>)
    ensures var g := RegisterSpec(records, supply, a);
      && (a.v3 != "" ==> g.supply == supply && (g.result.Success? ==> g.result.value.v3 == a.v3 && g.result.value.id == a.v3))
      && (a.v3 == "" && supply.Some? && supply.value != [] ==>
            g.supply == Some(supply.value[1..]) && (g.result.Success? ==> g.result.value.v3 == supply.value[0]))
      && (a.v3 == "" && supply.None? ==> g.result == Failure(Invalid(MissingV2OrV3(a.v2, ""))))
      && (g.result.Failure? ==> g.records == records)
      && (g.result.Success? ==> g.result.value.v2 == a.v2 && g.result.value in g.records)
      && g.result == RegisterSpec(other, supply, a).result
  {
    var g := RegisterSpec(records, supply, a);
    if g.result.Success? {
      UpsertMeaning(records, g.result.value);
    }
  }

  /** `register` over a collection and an optional generator. */
  method Register(coll: Collection, gen: TokenSupply?, a: DocsArgs) returns (r: Result<DocsRecord, RegisterError>)
    modifies coll, gen
    ensures RegisterSpec(old(coll.records), if gen == null then None else Some(old(gen.tokens)), a)
      == Registration(r, coll.records, if gen == null then None else Some(gen.tokens))
  {
    var found := Get(coll.records, a.doi, a.filename, a.v2, a.aop, a.v3);
    var obj: DocsIds;
    if found.Some? {
      obj := new DocsIds.Load(found.value);
    } else {
      obj := new DocsIds();
    }
    var v3 := a.v3;
    if v3 == "" && gen != null {
      var token := gen.Next();
      if token.None? {
        return Failure(GeneratorRaised);
      }
      v3 := token.value;
    }
    var error := Update(obj, a.(v3 := v3));
    if error.Some? {
      return Failure(Invalid(error.value));
    }
    coll.Save(obj);
    r := Success(obj.Value());
  }
}
