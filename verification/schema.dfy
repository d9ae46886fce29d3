/**
 * The three SQL tables of the PID manager (scielo_v3_manager/pid_manager.py,
 * classes PidVersion, NewPidVersion and Documents) as in-memory sequences of
 * rows in stored order, with the unique constraints their inserts and
 * updates are checked against.
 */
module Schema {
  import opened Wrappers
  import opened Text

  /**
   * The columns of a `docs` row, which are also the keys of the input
   * dict that `DocManager` builds and saves with `Documents(**data)`.
   */
  datatype DocData = DocData(
    v2: string, v3: string, v3Origin: string, aop: string,
    filename: string, doi: string, issn: string,
    pubYear: string, issueOrder: string,
    volume: string, number: string, suppl: string,
    elocation: string, fpage: string, lpage: string,
    firstAuthorSurname: string, lastAuthorSurname: string,
    articleTitle: string, otherPids: string, status: string)

  /** The dict keys of `DocData`, so that queries can be built from key lists. */
  datatype Key =
    | V2 | V3 | V3Origin | Aop | Filename | Doi | Issn | PubYear | IssueOrder
    | Volume | Number | Suppl | Elocation | Fpage | Lpage
    | FirstAuthorSurname | LastAuthorSurname | ArticleTitle | OtherPids | Status

  /** `data[k]` */
  function Get(d: DocData, k: Key): string
  {
    match k
    case V2 => d.v2
    case V3 => d.v3
    case V3Origin => d.v3Origin
    case Aop => d.aop
    case Filename => d.filename
    case Doi => d.doi
    case Issn => d.issn
    case PubYear => d.pubYear
    case IssueOrder => d.issueOrder
    case Volume => d.volume
    case Number => d.number
    case Suppl => d.suppl
    case Elocation => d.elocation
    case Fpage => d.fpage
    case Lpage => d.lpage
    case FirstAuthorSurname => d.firstAuthorSurname
    case LastAuthorSurname => d.lastAuthorSurname
    case ArticleTitle => d.articleTitle
    case OtherPids => d.otherPids
    case Status => d.status
  }

  /** `data[k] = v` */
  function Set(d: DocData, k: Key, v: string): (r: DocData)
    ensures Get(r, k) == v
    ensures forall k' :: k' != k ==> Get(r, k') == Get(d, k')
  {
    match k
    case V2 => d.(v2 := v)
    case V3 => d.(v3 := v)
    case V3Origin => d.(v3Origin := v)
    case Aop => d.(aop := v)
    case Filename => d.(filename := v)
    case Doi => d.(doi := v)
    case Issn => d.(issn := v)
    case PubYear => d.(pubYear := v)
    case IssueOrder => d.(issueOrder := v)
    case Volume => d.(volume := v)
    case Number => d.(number := v)
    case Suppl => d.(suppl := v)
    case Elocation => d.(elocation := v)
    case Fpage => d.(fpage := v)
    case Lpage => d.(lpage := v)
    case FirstAuthorSurname => d.(firstAuthorSurname := v)
    case LastAuthorSurname => d.(lastAuthorSurname := v)
    case ArticleTitle => d.(articleTitle := v)
    case OtherPids => d.(otherPids := v)
    case Status => d.(status := v)
  }

  /** Two dicts with the same value under every key are equal. */
  lemma GetExtensional(a: DocData, b: DocData)
    requires forall k :: Get(a, k) == Get(b, k)
    ensures a == b
  {
    assert Get(a, V2) == Get(b, V2) && Get(a, V3) == Get(b, V3);
    assert Get(a, V3Origin) == Get(b, V3Origin) && Get(a, Aop) == Get(b, Aop);
    assert Get(a, Filename) == Get(b, Filename) && Get(a, Doi) == Get(b, Doi);
    assert Get(a, Issn) == Get(b, Issn) && Get(a, PubYear) == Get(b, PubYear);
    assert Get(a, IssueOrder) == Get(b, IssueOrder) && Get(a, Volume) == Get(b, Volume);
    assert Get(a, Number) == Get(b, Number) && Get(a, Suppl) == Get(b, Suppl);
    assert Get(a, Elocation) == Get(b, Elocation) && Get(a, Fpage) == Get(b, Fpage);
    assert Get(a, Lpage) == Get(b, Lpage) && Get(a, OtherPids) == Get(b, OtherPids);
    assert Get(a, FirstAuthorSurname) == Get(b, FirstAuthorSurname);
    assert Get(a, LastAuthorSurname) == Get(b, LastAuthorSurname);
    assert Get(a, ArticleTitle) == Get(b, ArticleTitle) && Get(a, Status) == Get(b, Status);
  }

  /** A stored `docs` row: the autoincrement id and the columns. */
  datatype DocRow = DocRow(id: int, data: DocData)

  /**
   * `Documents.as_dict`: the id and every column except volume, number,
   * suppl and status, which it does not list (timestamps are not modelled).
   */
  datatype DocView = DocView(
    id: int, v2: string, v3: string, v3Origin: string,
    aop: string, filename: string, doi: string,
    pubYear: string, issueOrder: string,
    elocation: string, fpage: string, lpage: string,
    firstAuthorSurname: string, lastAuthorSurname: string,
    articleTitle: string, otherPids: string, issn: string)

  function AsDict(row: DocRow): (r: DocView)
    ensures r.id == row.id && r.v2 == row.data.v2 && r.v3 == row.data.v3
    ensures r.v3Origin == row.data.v3Origin && r.aop == row.data.aop
  {
    var d := row.data;
    DocView(row.id, d.v2, d.v3, d.v3Origin, d.aop, d.filename, d.doi,
            d.pubYear, d.issueOrder, d.elocation, d.fpage, d.lpage,
            d.firstAuthorSurname, d.lastAuthorSurname,
            d.articleTitle, d.otherPids, d.issn)
  }

  /** The columns of a `pids` row (NewPidVersion); timestamps are not modelled. */
  datatype PidData = PidData(
    v2: string, v3: string, aop: string, filename: string,
    prefixV2: string, prefixAop: string, doi: string, status: string)

  datatype PidRow = PidRow(id: int, data: PidData)

  /** A `pid_versions` row (PidVersion), the oldest schema. */
  datatype PidVersionRow = PidVersionRow(id: int, v2: string, v3: string)

  /** The database the session sees. */
  datatype Tables = Tables(docs: seq<DocRow>, pids: seq<PidRow>, pidVersions: seq<PidVersionRow>)

  /** A result with the tables and the v3 generator's remaining tokens after the step. */
  datatype After<T> = After(result: T, tables: Tables, tokens: seq<string>)

  /**
   * The id an autoincrement key gives the next row: 1 in an empty table,
   * else one more than the largest id.
   */
  function NextId<T>(rows: seq<T>, id: T -> int): (r: int)
    ensures forall row :: row in rows ==> id(row) < r
  {
    if rows == [] then 1
    else
      var r := NextId(rows[1..], id);
      assert forall row :: row in rows ==> row == rows[0] || row in rows[1..];
      if id(rows[0]) >= r || |rows| == 1 then id(rows[0]) + 1 else r
  }

  /** `Documents(**data)` added and committed: rejected when the pair (v2, v3) is taken (constraint `_docs_`). */
  function InsertDoc(docs: seq<DocRow>, data: DocData): (r: Result<DocRow, ()>)
    ensures r.Failure? <==> exists row :: row in docs && row.data.v2 == data.v2 && row.data.v3 == data.v3
    ensures r.Success? ==> r.value.data == data && forall row :: row in docs ==> row.id < r.value.id
  {
    if exists row :: row in docs && row.data.v2 == data.v2 && row.data.v3 == data.v3 then Failure(())
    else
      Success(DocRow(NextId(docs, (row: DocRow) => row.id), data))
  }

  /** Another `pids` row already holds this v2 or this v3 (both columns are unique). */
  predicate PidClash(pids: seq<PidRow>, data: PidData, except: Option<int>)
  {
    exists row :: row in pids && (except.None? || row.id != except.value) &&
                  (row.data.v2 == data.v2 || row.data.v3 == data.v3)
  }

  /** `NewPidVersion(...)` added and committed. */
  function InsertPid(pids: seq<PidRow>, data: PidData): (r: Result<PidRow, ()>)
    ensures r.Failure? <==> PidClash(pids, data, None)
    ensures r.Success? ==> r.value.data == data && forall row :: row in pids ==> row.id < r.value.id
  {
    if PidClash(pids, data, None) then Failure(())
    else
      Success(PidRow(NextId(pids, (row: PidRow) => row.id), data))
  }

  /** `UPDATE pids SET ... WHERE id = ...`: rejected when another row holds the new v2 or v3. */
  function UpdatePid(pids: seq<PidRow>, id: int, data: PidData): (r: Result<seq<PidRow>, ()>)
    ensures r.Failure? <==> PidClash(pids, data, Some(id))
    ensures r.Success? ==> |r.value| == |pids|
    ensures r.Success? ==> forall i :: 0 <= i < |pids| ==>
      r.value[i] == if pids[i].id == id then PidRow(id, data) else pids[i]
  {
    if PidClash(pids, data, Some(id)) then Failure(())
    else Success(seq(|pids|, i requires 0 <= i < |pids| => if pids[i].id == id then PidRow(id, data) else pids[i]))
  }

  /** The database handle shared by the session of a call. */
  class Database {
    var docs: seq<DocRow>
    var pids: seq<PidRow>
    var pidVersions: seq<PidVersionRow>

    constructor (t: Tables)
      ensures Snapshot() == t
    {
      docs, pids, pidVersions := t.docs, t.pids, t.pidVersions;
    }

    function Snapshot(): Tables
      reads this
    {
      Tables(docs, pids, pidVersions)
    }

    method AddDoc(data: DocData) returns (r: Result<DocRow, ()>)
      modifies this
      ensures r == InsertDoc(old(docs), data)
      ensures docs == if r.Success? then old(docs) + [r.value] else old(docs)
      ensures pids == old(pids) && pidVersions == old(pidVersions)
    {
      r := InsertDoc(docs, data);
      if r.Success? {
        docs := docs + [r.value];
      }
    }

    method AddPid(data: PidData) returns (r: Result<PidRow, ()>)
      modifies this
      ensures r == InsertPid(old(pids), data)
      ensures pids == if r.Success? then old(pids) + [r.value] else old(pids)
      ensures docs == old(docs) && pidVersions == old(pidVersions)
    {
      r := InsertPid(pids, data);
      if r.Success? {
        pids := pids + [r.value];
      }
    }

    method SetPid(id: int, data: PidData) returns (ok: bool)
      modifies this
      ensures ok == UpdatePid(old(pids), id, data).Success?
      ensures pids == if ok then UpdatePid(old(pids), id, data).value else old(pids)
      ensures docs == old(docs) && pidVersions == old(pidVersions)
    {
      var r := UpdatePid(pids, id, data);
      ok := r.Success?;
      if ok {
        pids := r.value;
      }
    }
  }
}
