/**
 * The matching cascade of `DocManager` (scielo_v3_manager/pid_manager.py:254-418):
 * the two issue-level queries over `docs` and the three recovery lookups
 * (AOP version in `docs`, the `pids` table, the `pid_versions` table).
 * Query failures are not modelled: every query returns its rows.
 */
module Matcher {
  import opened Wrappers
  import opened Text
  import opened Seqs
  import opened Schema

  /** `_doc_attributes` */
  const DocAttributes: seq<Key> := [Issn, PubYear, Doi, FirstAuthorSurname, LastAuthorSurname]

  /** `_doc_and_issue_attributes` */
  const DocAndIssueAttributes: seq<Key> := DocAttributes + [IssueOrder, Elocation, Fpage, Lpage]

  /** `filter_by(**params)` on one row: every parameter equals the row's column. */
  predicate MatchesParams(d: DocData, params: map<Key, string>)
  {
    forall k :: k in params ==> Get(d, k) == params[k]
  }

  /** `{k: input_data.get(k) or '' for k in keys}` */
  function Params(input: DocData, keys: seq<Key>): map<Key, string>
  {
    map k | k in keys :: Get(input, k)
  }

  /** The parameters of `_get_document_published_in_an_issue(v2)`: v2 is added only when non-empty. */
  function IssueParams(input: DocData, v2: string): map<Key, string>
  {
    var p := Params(input, DocAndIssueAttributes);
    if v2 != "" then p[V2 := v2] else p
  }

  /** The row describes the same article in the same issue as the input. */
  predicate SameIssue(d: DocData, input: DocData)
  {
    forall k :: k in DocAndIssueAttributes ==> Get(d, k) == Get(input, k)
  }

  lemma IssueParamsMeaning(d: DocData, input: DocData, v2: string)
    ensures MatchesParams(d, IssueParams(input, v2)) <==> SameIssue(d, input) && (v2 != "" ==> d.v2 == v2)
  {
    if MatchesParams(d, IssueParams(input, v2)) {
      forall k | k in DocAndIssueAttributes ensures Get(d, k) == Get(input, k) {
        assert k != V2;
        assert k in IssueParams(input, v2);
      }
      if v2 != "" {
        assert V2 in IssueParams(input, v2);
      }
    }
  }

  /** `session.query(Documents).filter_by(**params).all()` */
  function QueryDocs(docs: seq<DocRow>, params: map<Key, string>): (r: seq<DocRow>)
    ensures forall row :: row in r <==> row in docs && MatchesParams(row.data, params)
  {
    Filter(docs, (row: DocRow) => MatchesParams(row.data, params))
  }

  /** `sorted(rows, key=id)[-1]`: the last of the rows with the highest id (the sort is stable). */
  function LastHighest(rows: seq<DocRow>): (r: Option<DocRow>)
    ensures r.None? <==> rows == []
    ensures r.Some? ==> r.value in rows && forall x :: x in rows ==> x.id <= r.value.id
    ensures r.Some? ==> exists j :: 0 <= j < |rows| && rows[j] == r.value &&
                                    forall i :: j < i < |rows| ==> rows[i].id < r.value.id
  {
    if rows == [] then None
    else
      var init, last := rows[..|rows| - 1], rows[|rows| - 1];
      assert rows == init + [last];
      match LastHighest(init)
      case None => Some(last)
      case Some(m) => if last.id >= m.id then Some(last) else Some(m)
  }

  /** `_get_document_published_in_an_issue(v2)`: the highest-id `docs` row of that issue (and v2). */
  function IssueLookup(docs: seq<DocRow>, input: DocData, v2: string): (r: Option<DocRow>)
    ensures r.None? <==> forall row :: row in docs ==> !MatchesParams(row.data, IssueParams(input, v2))
    ensures r.Some? ==> r.value in docs && MatchesParams(r.value.data, IssueParams(input, v2))
    ensures r.Some? ==> forall row :: row in docs && MatchesParams(row.data, IssueParams(input, v2)) ==>
                                      row.id <= r.value.id
  {
    LastHighest(QueryDocs(docs, IssueParams(input, v2)))
  }

  /** The issue-level step of `manage_docs`: with the input's v2 first, then without it. */
  function IssueMatch(docs: seq<DocRow>, input: DocData): Option<DocRow>
  {
    var r := IssueLookup(docs, input, input.v2);
    if r.Some? then r else IssueLookup(docs, input, "")
  }

  /** Fields recovered from a previous registration, merged into the new record. */
  datatype Fragment = Fragment(v3: string, v3Origin: string, aop: Option<string>)

  /** A recovery lookup: no row, exactly one row (its fragment), or several (their ids). */
  datatype Lookup = NotFound | Found(fragment: Fragment) | MoreThanOne(ids: seq<int>)

  /** The ids of the rows a query found, in stored order. */
  function Ids<T>(found: seq<T>, id: T -> int): (r: seq<int>)
    ensures |r| == |found|
    ensures forall i :: 0 <= i < |found| ==> r[i] == id(found[i])
  {
    seq(|found|, i requires 0 <= i < |found| => id(found[i]))
  }

  /** None on no row, the fragment of the row when exactly one, ambiguity when more. */
  function Classify<T>(found: seq<T>, fragment: T -> Fragment, id: T -> int): (r: Lookup)
    ensures r.NotFound? <==> found == []
    ensures r.Found? <==> |found| == 1
    ensures r.Found? ==> r.fragment == fragment(found[0])
    ensures r.MoreThanOne? ==> |r.ids| >= 2 && r.ids == Ids(found, id)
  {
    if |found| == 0 then NotFound
    else if |found| == 1 then Found(fragment(found[0]))
    else MoreThanOne(Ids(found, id))
  }

  /** The AOP query: the article fields with volume, number, suppl, fpage and lpage empty. */
  function AopParams(input: DocData): map<Key, string>
  {
    Params(input, DocAttributes) + map[Volume := "", Number := "", Suppl := "", Fpage := "", Lpage := ""]
  }

  /** A row from the AOP query gives its v3, `docs_<id>` and its v2 as the aop. */
  function DocsFragment(row: DocRow): Fragment
  {
    Fragment(row.data.v3, "docs_" + IntToStr(row.id), Some(row.data.v2))
  }

  /** `_get_document_aop_version` */
  function AopVersion(docs: seq<DocRow>, input: DocData): Lookup
  {
    Classify(QueryDocs(docs, AopParams(input)), DocsFragment, (row: DocRow) => row.id)
  }

  /** The `pids` query: same filename, and the row's upper-cased doi equals the input doi. */
  predicate PidsMatch(row: PidRow, input: DocData)
  {
    row.data.filename == input.filename && Upper(row.data.doi) == input.doi
  }

  /** A `pids` row gives its v3, `pids_<id>` and its aop when non-empty. */
  function PidsFragment(row: PidRow): Fragment
  {
    Fragment(row.data.v3, "pids_" + IntToStr(row.id), if row.data.aop != "" then Some(row.data.aop) else None)
  }

  /** `_get_document_from_pids_table` */
  function FromPidsTable(pids: seq<PidRow>, input: DocData): Lookup
  {
    Classify(Filter(pids, (row: PidRow) => PidsMatch(row, input)), PidsFragment, (row: PidRow) => row.id)
  }

  /** A `pid_versions` row gives its v3 and `pid_versions_<id>`. */
  function PidVersionsFragment(row: PidVersionRow): Fragment
  {
    Fragment(row.v3, "pid_versions_" + IntToStr(row.id), None)
  }

  /** `_get_document_from_pid_versions_table`: the legacy rows with the input's v2. */
  function FromPidVersionsTable(pidVersions: seq<PidVersionRow>, input: DocData): Lookup
  {
    Classify(Filter(pidVersions, (row: PidVersionRow) => row.v2 == input.v2),
             PidVersionsFragment, (row: PidVersionRow) => row.id)
  }

  /**
   * The AOP lookup finds nothing when no row matches; when exactly one
   * row matches it gives that row's fragment.
   */
  lemma AopVersionMeaning(docs: seq<DocRow>, input: DocData)
    ensures AopVersion(docs, input).NotFound? <==>
      forall row :: row in docs ==> !MatchesParams(row.data, AopParams(input))
    ensures AopVersion(docs, input).Found? ==>
      exists row :: row in docs && MatchesParams(row.data, AopParams(input)) &&
        AopVersion(docs, input).fragment == DocsFragment(row) &&
        forall other :: other in docs && MatchesParams(other.data, AopParams(input)) ==> other == row
  {
    var a := QueryDocs(docs, AopParams(input));
    if |a| == 1 { assert a[0] in a; }
    if a != [] { assert a[0] in a; }
  }

  /** The `pids` lookup, likewise. */
  lemma FromPidsTableMeaning(pids: seq<PidRow>, input: DocData)
    ensures FromPidsTable(pids, input).NotFound? <==> forall row :: row in pids ==> !PidsMatch(row, input)
    ensures FromPidsTable(pids, input).Found? ==>
      exists row :: row in pids && PidsMatch(row, input) &&
        FromPidsTable(pids, input).fragment == PidsFragment(row) &&
        forall other :: other in pids && PidsMatch(other, input) ==> other == row
  {
    var p := Filter(pids, (row: PidRow) => PidsMatch(row, input));
    if |p| == 1 { assert p[0] in p; }
    if p != [] { assert p[0] in p; }
  }

  /** The `pid_versions` lookup, likewise. */
  lemma FromPidVersionsTableMeaning(pidVersions: seq<PidVersionRow>, input: DocData)
    ensures FromPidVersionsTable(pidVersions, input).NotFound? <==>
      forall row :: row in pidVersions ==> row.v2 != input.v2
    ensures FromPidVersionsTable(pidVersions, input).Found? ==>
      exists row :: row in pidVersions && row.v2 == input.v2 &&
        FromPidVersionsTable(pidVersions, input).fragment == PidVersionsFragment(row) &&
        forall other :: other in pidVersions && other.v2 == input.v2 ==> other == row
  {
    var v := Filter(pidVersions, (row: PidVersionRow) => row.v2 == input.v2);
    if |v| == 1 { assert v[0] in v; }
    if v != [] { assert v[0] in v; }
  }

  /** The outcome of the recovery chain. */
  datatype Recovery = NothingRecovered | Recovered(fragment: Fragment) | Ambiguous(ids: seq<int>)

  /**
   * `aop_version() or pids_table() or pid_versions_table()`: the first
   * lookup that finds one row wins; an ambiguous lookup ends the chain.
   */
  function Recover(t: Tables, input: DocData): Recovery
  {
    match AopVersion(t.docs, input)
    case MoreThanOne(ids) => Ambiguous(ids)
    case Found(f) => Recovered(f)
    case NotFound =>
      match FromPidsTable(t.pids, input)
      case MoreThanOne(ids) => Ambiguous(ids)
      case Found(f) => Recovered(f)
      case NotFound =>
        match FromPidVersionsTable(t.pidVersions, input)
        case MoreThanOne(ids) => Ambiguous(ids)
        case Found(f) => Recovered(f)
        case NotFound => NothingRecovered
  }

  /**
   * Order of the chain: the `pids` table is consulted only when the AOP
   * query finds nothing, and `pid_versions` only when `pids` finds nothing too.
   */
  lemma RecoverOrder(t: Tables, t': Tables, input: DocData)
    requires t.docs == t'.docs
    ensures !AopVersion(t.docs, input).NotFound? ==> Recover(t, input) == Recover(t', input)
    ensures t.pids == t'.pids && !FromPidsTable(t.pids, input).NotFound? ==> Recover(t, input) == Recover(t', input)
    ensures Recover(t, input).NothingRecovered? <==>
      && (forall row :: row in t.docs ==> !MatchesParams(row.data, AopParams(input)))
      && (forall row :: row in t.pids ==> !PidsMatch(row, input))
      && (forall row :: row in t.pidVersions ==> row.v2 != input.v2)
  {
    AopVersionMeaning(t.docs, input);
    FromPidsTableMeaning(t.pids, input);
    FromPidVersionsTableMeaning(t.pidVersions, input);
  }
}
