/**
 * The registration coordinator of `DocManager`
 * (scielo_v3_manager/pid_manager.py:420-532) as functions of the tables,
 * the generator's remaining tokens and the normalised input: the v3
 * allocator, `_prepare_record_to_save`, `_register_doc` and `manage_docs`.
 * `PidManager.DocManager` runs the same steps on a `Database` and is
 * proved equal to `ManageDocsSpec`.
 */
module Registration {
  import opened Wrappers
  import opened Text
  import opened Seqs
  import opened Schema
  import opened Matcher

  datatype ErrorKind =
    | MoreThanOneRecordFound(ids: seq<int>)  // an ambiguous recovery lookup
    | AlreadyRegisteredDocument              // the insert broke the (v2, v3) constraint
    | GeneratorFailed                        // the v3 generator raised

  /** The `response['exception']` entry: the action and the exception. */
  datatype ExceptionEntry = ExceptionEntry(action: string, error: ErrorKind)

  const QueryingAction := "manage_docs: querying record"
  const RegisteringAction := "manage_docs: registering document"

  /** The response dict: `input` and the optional `registered`, `created` and `exception` entries. */
  datatype Response = Response(
    input: DocData, registered: Option<DocView>, created: Option<DocView>, exception: Option<ExceptionEntry>)

  /** `manage_docs` returns a response, or an exception escapes it. */
  datatype Outcome = Returned(response: Response) | Raised(error: ErrorKind)

  /** `is_registered_v3`: a row of docs, pids or pid_versions holds the v3. */
  predicate V3Registered(t: Tables, v3: string)
  {
    || (exists row :: row in t.docs && row.data.v3 == v3)
    || (exists row :: row in t.pids && row.data.v3 == v3)
    || (exists row :: row in t.pidVersions && row.v3 == v3)
  }

  /** `_get_unique_v3`: the position of the first generated token that no table holds. */
  function FirstUnregistered(t: Tables, tokens: seq<string>): (r: Option<nat>)
    ensures r.None? ==> forall i :: 0 <= i < |tokens| ==> V3Registered(t, tokens[i])
    ensures r.Some? ==> r.value < |tokens| && !V3Registered(t, tokens[r.value])
    ensures r.Some? ==> forall i :: 0 <= i < r.value ==> V3Registered(t, tokens[i])
  {
    FirstIndex(tokens, (v3: string) => !V3Registered(t, v3))
  }

  /** `data.update(recovered_data)`: the recovered v3, v3_origin and (when present) aop override. */
  function Merge(data: DocData, recovered: Option<Fragment>): DocData
  {
    match recovered
    case None => data
    case Some(f) =>
      var d := data.(v3 := f.v3, v3Origin := f.v3Origin);
      if f.aop.Some? then d.(aop := f.aop.value) else d
  }

  /** `_prepare_record_to_save(data, recovered)`: the record to save and the tokens left. */
  function Prepare(t: Tables, tokens: seq<string>, data: DocData, recovered: Option<Fragment>)
    : After<Result<DocData, ErrorKind>>
  {
    if (recovered.None? || recovered.value.v3 == "") && (data.v3 == "" || V3Registered(t, data.v3)) then
      match FirstUnregistered(t, tokens)
      case None => After(Failure(GeneratorFailed), t, [])
      case Some(i) =>
        After(Success(Merge(data.(v3 := tokens[i], v3Origin := "generated"), recovered)), t, tokens[i + 1..])
    else
      After(Success(Merge(data, recovered)), t, tokens)
  }

  /** The keys neither the allocator nor a recovered fragment touches. */
  predicate KeptKey(k: Key) { k != V3 && k != V3Origin && k != Aop }

  /**
   * Which v3 is stored: a non-empty recovered v3 wins; otherwise a
   * non-empty input v3 that no table holds is kept; otherwise the first
   * generated token that no table holds, tagged 'generated'. Recovered
   * fields override the input's; every other field is the input's.
   */
  lemma PrepareChoosesV3(t: Tables, tokens: seq<string>, data: DocData, recovered: Option<Fragment>)
    ensures var p := Prepare(t, tokens, data, recovered);
      && p.tables == t
      && (p.result.Success? ==> forall k :: KeptKey(k) ==> Get(p.result.value, k) == Get(data, k))
      && (recovered.Some? ==> p.result.Success? ==>
            p.result.value.v3 == recovered.value.v3 && p.result.value.v3Origin == recovered.value.v3Origin &&
            p.result.value.aop == (if recovered.value.aop.Some? then recovered.value.aop.value else data.aop))
      && (recovered.Some? && recovered.value.v3 != "" ==> p.result.Success? && p.tokens == tokens)
      && (recovered.None? && data.v3 != "" && !V3Registered(t, data.v3) ==> p == After(Success(data), t, tokens))
      && (recovered.None? && (data.v3 == "" || V3Registered(t, data.v3)) ==>
            match FirstUnregistered(t, tokens)
            case None => p.result == Failure(GeneratorFailed)
            case Some(i) =>
              && p.result.Success?
              && p.result.value.v3 == tokens[i] && !V3Registered(t, tokens[i])
              && p.result.value.v3Origin == "generated"
              && p.tokens == tokens[i + 1..])
  {
    var p := Prepare(t, tokens, data, recovered);
    if p.result.Success? {
      forall k | KeptKey(k) ensures Get(p.result.value, k) == Get(data, k) {
        match k
        case V2 => case Filename => case Doi => case Issn => case PubYear =>
        case IssueOrder => case Volume => case Number => case Suppl => case Elocation =>
        case Fpage => case Lpage => case FirstAuthorSurname => case LastAuthorSurname =>
        case ArticleTitle => case OtherPids => case Status =>
      }
    }
  }

  /** `_register_doc`: prepare a copy of the input, then `_save_record`. */
  function RegisterDoc(t: Tables, tokens: seq<string>, input: DocData, recovered: Option<Fragment>)
    : After<Result<DocRow, ErrorKind>>
  {
    var p := Prepare(t, tokens, input, recovered);
    match p.result
    case Failure(e) => After(Failure(e), t, p.tokens)
    case Success(data) =>
      match InsertDoc(t.docs, data)
      case Failure(_) => After(Failure(AlreadyRegisteredDocument), t, p.tokens)
      case Success(row) => After(Success(row), t.(docs := t.docs + [row]), p.tokens)
  }

  /** The fragment `manage_docs` takes from an issue-level hit whose v2 differs. */
  function HitFragment(hit: DocRow): Fragment
  {
    Fragment(hit.data.v3, hit.data.v3Origin, if hit.data.aop != "" then Some(hit.data.aop) else None)
  }

  /** `manage_docs`, with the ambiguity of a recovery lookup recorded as intended (see `AmbiguityRaiseAsWritten`). */
  function ManageDocsSpec(t: Tables, tokens: seq<string>, input: DocData): After<Outcome>
  {
    match IssueMatch(t.docs, input)
    case Some(hit) =>
      if input.v2 == hit.data.v2 then
        After(Returned(Response(input, Some(AsDict(hit)), None, None)), t, tokens)
      else
        var r := RegisterDoc(t, tokens, input, Some(HitFragment(hit)));
        (match r.result
         case Success(row) => After(Returned(Response(input, None, Some(AsDict(row)), None)), r.tables, r.tokens)
         case Failure(e) => After(Raised(e), r.tables, r.tokens))
    case None =>
      var rec := Recover(t, input);
      var recovered := if rec.Recovered? then Some(rec.fragment) else None;
      var entry := if rec.Ambiguous? then Some(ExceptionEntry(QueryingAction, MoreThanOneRecordFound(rec.ids))) else None;
      var r := RegisterDoc(t, tokens, input, recovered);
      match r.result
      case Success(row) => After(Returned(Response(input, None, Some(AsDict(row)), entry)), r.tables, r.tokens)
      case Failure(AlreadyRegisteredDocument) => After(Returned(Response(input, None, None, entry)), r.tables, r.tokens)
      case Failure(e) =>
        After(Returned(Response(input, None, None, Some(ExceptionEntry(RegisteringAction, e)))), r.tables, r.tokens)
  }

  /** The issue-level parameters never mention the fields a registration may replace. */
  lemma IssueKeysAreKept(k: Key)
    requires k in DocAndIssueAttributes
    ensures KeptKey(k) && k != V2
  {
  }

  /**
   * `_register_doc` either fails and leaves the tables alone, or appends
   * one `docs` row with a fresh, higher id whose fields other than v3,
   * v3_origin and aop are the input's; it consumes a prefix of the tokens.
   */
  lemma RegisterDocEffect(t: Tables, tokens: seq<string>, input: DocData, recovered: Option<Fragment>)
    ensures var r := RegisterDoc(t, tokens, input, recovered);
      && (r.result.Failure? ==> r.tables == t)
      && (r.result.Success? ==> r.tables == t.(docs := t.docs + [r.result.value]))
      && (r.result.Success? ==> forall row :: row in t.docs ==> row.id < r.result.value.id)
      && (r.result.Success? ==> forall k :: KeptKey(k) ==> Get(r.result.value.data, k) == Get(input, k))
      && (r.result.Success? ==> r.result.value.data == Prepare(t, tokens, input, recovered).result.value)
      && (r.result == Failure(AlreadyRegisteredDocument) <==>
            var p := Prepare(t, tokens, input, recovered).result;
            p.Success? && exists row :: row in t.docs && row.data.v2 == p.value.v2 && row.data.v3 == p.value.v3)
      && exists n :: 0 <= n <= |tokens| && r.tokens == tokens[n..]
  {
    PrepareChoosesV3(t, tokens, input, recovered);
    var p := Prepare(t, tokens, input, recovered);
    if p.tokens == [] {
      assert p.tokens == tokens[|tokens|..];
    } else if p.tokens == tokens {
      assert p.tokens == tokens[0..];
    }
  }

  /** A repeated issue (same v2) is answered from the table: nothing is written, nothing is drawn. */
  lemma SameV2HitIsReturned(t: Tables, tokens: seq<string>, input: DocData, hit: DocRow)
    requires IssueMatch(t.docs, input) == Some(hit) && hit.data.v2 == input.v2
    ensures hit in t.docs && SameIssue(hit.data, input)
    ensures ManageDocsSpec(t, tokens, input) == After(Returned(Response(input, Some(AsDict(hit)), None, None)), t, tokens)
  {
    IssueParamsMeaning(hit.data, input, input.v2);
  }

  /**
   * The same article found in the same issue under another v2: the new
   * row reuses the found v3, its origin and (when non-empty) its aop; it
   * fails only when that (v2, v3) pair is taken, and then it raises.
   */
  lemma DifferentV2HitReusesV3(t: Tables, tokens: seq<string>, input: DocData, hit: DocRow)
    requires IssueMatch(t.docs, input) == Some(hit) && hit.data.v2 != input.v2 && hit.data.v3 != ""
    ensures var m := ManageDocsSpec(t, tokens, input);
      && m.tokens == tokens
      && (m.result.Raised? <==> exists row :: row in t.docs && row.data.v2 == input.v2 && row.data.v3 == hit.data.v3)
      && (m.result.Raised? ==> m.result.error == AlreadyRegisteredDocument && m.tables == t)
      && (m.result.Returned? ==> exists row ::
            && m.tables == t.(docs := t.docs + [row])
            && m.result.response == Response(input, None, Some(AsDict(row)), None)
            && row.data.v2 == input.v2 && row.data.v3 == hit.data.v3 && row.data.v3Origin == hit.data.v3Origin
            && row.data.aop == (if hit.data.aop != "" then hit.data.aop else input.aop))
  {
    PrepareChoosesV3(t, tokens, input, Some(HitFragment(hit)));
    RegisterDocEffect(t, tokens, input, Some(HitFragment(hit)));
  }

  /**
   * Issue-level precedence: once the issue query finds a row with a v3,
   * the `pids` and `pid_versions` tables play no part in the outcome.
   */
  lemma IssueHitIgnoresPidTables(t: Tables, t': Tables, tokens: seq<string>, input: DocData)
    requires t.docs == t'.docs
    requires IssueMatch(t.docs, input).Some? && IssueMatch(t.docs, input).value.data.v3 != ""
    ensures ManageDocsSpec(t, tokens, input).result == ManageDocsSpec(t', tokens, input).result
    ensures ManageDocsSpec(t, tokens, input).tokens == ManageDocsSpec(t', tokens, input).tokens
    ensures ManageDocsSpec(t, tokens, input).tables.docs == ManageDocsSpec(t', tokens, input).tables.docs
  {
    var hit := IssueMatch(t.docs, input).value;
    if hit.data.v2 != input.v2 {
      PrepareChoosesV3(t, tokens, input, Some(HitFragment(hit)));
      PrepareChoosesV3(t', tokens, input, Some(HitFragment(hit)));
    }
  }

  /**
   * An ambiguous recovery lookup is recorded under 'exception' and the
   * document is registered as if nothing had been recovered; a later
   * registration failure other than a duplicate replaces the entry.
   */
  lemma AmbiguityFallsBackToCreate(t: Tables, tokens: seq<string>, input: DocData)
    requires IssueMatch(t.docs, input).None? && Recover(t, input).Ambiguous?
    ensures var m := ManageDocsSpec(t, tokens, input);
      var r := RegisterDoc(t, tokens, input, None);
      && m.tables == r.tables && m.tokens == r.tokens
      && m.result.Returned? && m.result.response.input == input && m.result.response.registered.None?
      && m.result.response.created == (if r.result.Success? then Some(AsDict(r.result.value)) else None)
      && m.result.response.exception ==
           if r.result.Failure? && r.result.error != AlreadyRegisteredDocument
           then Some(ExceptionEntry(RegisteringAction, r.result.error))
           else Some(ExceptionEntry(QueryingAction, MoreThanOneRecordFound(Recover(t, input).ids)))
  {
  }

  /**
   * With nothing found anywhere, the created record keeps a provided v3
   * that no table holds, otherwise carries a generated one; either way
   * no table held it before and exactly one `docs` row holds it after.
   */
  lemma NewDocumentGetsUnusedV3(t: Tables, tokens: seq<string>, input: DocData)
    requires IssueMatch(t.docs, input).None? && Recover(t, input).NothingRecovered?
    ensures var m := ManageDocsSpec(t, tokens, input);
      m.result.Returned? && m.result.response.created.Some? ==>
        var v := m.result.response.created.value;
        && !V3Registered(t, v.v3)
        && (input.v3 != "" && !V3Registered(t, input.v3) ==> v.v3 == input.v3 && v.v3Origin == input.v3Origin)
        && (input.v3 == "" || V3Registered(t, input.v3) ==> v.v3Origin == "generated")
        && (forall row :: row in m.tables.docs && row.data.v3 == v.v3 ==> row.id == v.id)
  {
    PrepareChoosesV3(t, tokens, input, None);
    RegisterDocEffect(t, tokens, input, None);
    var m := ManageDocsSpec(t, tokens, input);
    if m.result.Returned? && m.result.response.created.Some? {
      var row := RegisterDoc(t, tokens, input, None).result.value;
      assert m.tables.docs == t.docs + [row];
      assert forall x :: x in t.docs ==> x.data.v3 != row.data.v3;
    }
  }

  /**
   * The AOP path: a document of an issue whose only earlier record is a
   * single ahead-of-print row takes that row's v3, `docs_<id>` as origin
   * and that row's v2 as its aop.
   */
  lemma AopVersionIsPromoted(t: Tables, tokens: seq<string>, input: DocData, aopRow: DocRow)
    requires IssueMatch(t.docs, input).None?
    requires QueryDocs(t.docs, AopParams(input)) == [aopRow] && aopRow.data.v3 != ""
    ensures var m := ManageDocsSpec(t, tokens, input);
      m.result.Returned? && m.result.response.created.Some? ==>
        var v := m.result.response.created.value;
        v.v3 == aopRow.data.v3 && v.v3Origin == "docs_" + IntToStr(aopRow.id) && v.aop == aopRow.data.v2
  {
    assert Recover(t, input) == Recovered(DocsFragment(aopRow));
    PrepareChoosesV3(t, tokens, input, Some(DocsFragment(aopRow)));
    RegisterDocEffect(t, tokens, input, Some(DocsFragment(aopRow)));
  }

  /**
   * `manage_docs` writes at most one `docs` row, never touches `pids` or
   * `pid_versions`, echoes the input and draws a prefix of the tokens;
   * `created` is present exactly when a row was appended, and that row is it.
   */
  lemma ManageDocsWritesAtMostOneRow(t: Tables, tokens: seq<string>, input: DocData)
    ensures var m := ManageDocsSpec(t, tokens, input);
      && m.tables.pids == t.pids && m.tables.pidVersions == t.pidVersions
      && (m.result.Returned? ==> m.result.response.input == input)
      && (m.result.Returned? && m.result.response.created.Some? ==>
            exists row :: m.tables.docs == t.docs + [row] && m.result.response.created == Some(AsDict(row)) &&
              forall x :: x in t.docs ==> x.id < row.id)
      && ((m.result.Returned? && m.result.response.created.None?) || m.result.Raised? ==> m.tables == t)
      && exists n :: 0 <= n <= |tokens| && m.tokens == tokens[n..]
  {
    var m := ManageDocsSpec(t, tokens, input);
    match IssueMatch(t.docs, input)
    case Some(hit) =>
      if input.v2 == hit.data.v2 {
        assert m.tokens == tokens[0..];
      } else {
        RegisterDocEffect(t, tokens, input, Some(HitFragment(hit)));
      }
    case None =>
      var rec := Recover(t, input);
      RegisterDocEffect(t, tokens, input, if rec.Recovered? then Some(rec.fragment) else None);
  }

  /** The row a creation appends: the input's fields outside v3, v3_origin and aop, and an id above the others. */
  lemma CreatedRow(t: Tables, tokens: seq<string>, input: DocData) returns (row: DocRow)
    requires ManageDocsSpec(t, tokens, input).result.Returned?
    requires ManageDocsSpec(t, tokens, input).result.response.created.Some?
    ensures var m := ManageDocsSpec(t, tokens, input);
      m.tables.docs == t.docs + [row] && m.result.response.created == Some(AsDict(row))
    ensures forall x :: x in t.docs ==> x.id < row.id
    ensures forall k :: KeptKey(k) ==> Get(row.data, k) == Get(input, k)
  {
    var recovered :=
      match IssueMatch(t.docs, input)
      case Some(hit) => Some(HitFragment(hit))
      case None => var rec := Recover(t, input); if rec.Recovered? then Some(rec.fragment) else None;
    RegisterDocEffect(t, tokens, input, recovered);
    row := RegisterDoc(t, tokens, input, recovered).result.value;
  }

  /** A row of the input's issue and v2 with the highest id is what the issue query finds. */
  lemma NewestRowIsIssueMatch(docs: seq<DocRow>, row: DocRow, input: DocData)
    requires forall k :: KeptKey(k) ==> Get(row.data, k) == Get(input, k)
    requires forall x :: x in docs ==> x.id < row.id
    ensures IssueMatch(docs + [row], input) == Some(row)
  {
    forall k | k in DocAndIssueAttributes ensures Get(row.data, k) == Get(input, k) {
      IssueKeysAreKept(k);
    }
    assert row.data.v2 == input.v2 by { assert KeptKey(V2); }
    IssueParamsMeaning(row.data, input, input.v2);
    var found := IssueLookup(docs + [row], input, input.v2);
    assert found.Some?;
    assert found.value !in docs;
  }

  /**
   * Re-registration is idempotent: submitting the same input again right
   * after a creation finds the created row at issue level and returns it
   * as `registered`, writing nothing and drawing nothing.
   */
  lemma ReRegistrationIsIdempotent(t: Tables, tokens: seq<string>, input: DocData)
    requires ManageDocsSpec(t, tokens, input).result.Returned?
    requires ManageDocsSpec(t, tokens, input).result.response.created.Some?
    ensures var m := ManageDocsSpec(t, tokens, input);
      ManageDocsSpec(m.tables, m.tokens, input) ==
        After(Returned(Response(input, m.result.response.created, None, None)), m.tables, m.tokens)
  {
    var row := CreatedRow(t, tokens, input);
    NewestRowIsIssueMatch(t.docs, row, input);
    assert row.data.v2 == input.v2 by { assert KeptKey(V2); }
  }

  /** An item of the list handed to `" ".join`: a string or an integer. */
  datatype PyValue = PyStr(text: string) | PyInt(number: int)

  /** `sep.join(items)`: `None` stands for the TypeError raised when an item is not a string. */
  function Join(sep: string, items: seq<PyValue>): (r: Option<string>)
    ensures r.None? <==> exists i :: 0 <= i < |items| && items[i].PyInt?
  {
    if items == [] then Some("")
    else if items[0].PyInt? then None
    else if |items| == 1 then Some(items[0].text)
    else
      match Join(sep, items[1..])
      case None => None
      case Some(rest) => Some(items[0].text + sep + rest)
  }

  /** What building the ambiguity error yields: the intended exception, or a TypeError on the way. */
  datatype Raise = TypeError | MoreThanOneRecordFoundError(msg: string)

  /** As written: the message joins the rows' integer ids themselves. */
  function AmbiguityRaiseAsWritten(ids: seq<int>): Raise
  {
    match Join(" ", seq(|ids|, i requires 0 <= i < |ids| => PyInt(ids[i])))
    case None => TypeError
    case Some(text) => MoreThanOneRecordFoundError("Found more than one: " + text)
  }

  /** As intended: the ids written in decimal before joining. */
  function AmbiguityRaiseIntended(ids: seq<int>): Raise
  {
    match Join(" ", seq(|ids|, i requires 0 <= i < |ids| => PyStr(IntToStr(ids[i]))))
    case None => TypeError
    case Some(text) => MoreThanOneRecordFoundError("Found more than one: " + text)
  }

  /** `manage_docs` catches `MoreThanOneRecordFoundError` around the lookups, and nothing else there. */
  predicate CaughtByManageDocs(e: Raise) { e.MoreThanOneRecordFoundError? }

  /**
   * Every ambiguous lookup (two rows or more) raises a TypeError as
   * written, which escapes `manage_docs`; with the ids written out the
   * intended exception is raised, caught and recorded (`ManageDocsSpec`).
   */
  lemma AmbiguityEscapesAsWritten(ids: seq<int>)
    requires |ids| >= 2
    ensures AmbiguityRaiseAsWritten(ids) == TypeError && !CaughtByManageDocs(AmbiguityRaiseAsWritten(ids))
    ensures CaughtByManageDocs(AmbiguityRaiseIntended(ids))
  {
    var written := seq(|ids|, i requires 0 <= i < |ids| => PyInt(ids[i]));
    assert written[0].PyInt?;
  }

  /**
   * `manage_docs` as written: when no issue-level row matches and a
   * recovery lookup is ambiguous, the exception `AmbiguityRaiseAsWritten`
   * builds is raised inside the try; if the except clause catches it the
   * run goes on as in `ManageDocsSpec`, otherwise it escapes before any
   * row is written or any token drawn.
   */
  function ManageDocsAsWritten(t: Tables, tokens: seq<string>, input: DocData): After<Result<Outcome, Raise>>
  {
    var m := ManageDocsSpec(t, tokens, input);
    if IssueMatch(t.docs, input).None? && Recover(t, input).Ambiguous? then
      var e := AmbiguityRaiseAsWritten(Recover(t, input).ids);
      if CaughtByManageDocs(e) then After(Success(m.result), m.tables, m.tokens)
      else After(Failure(e), t, tokens)
    else After(Success(m.result), m.tables, m.tokens)
  }

  /**
   * As written, `manage_docs` lets an exception escape exactly when no
   * issue-level row matches and a recovery lookup is ambiguous; that
   * exception is the TypeError, and nothing has been written or drawn.
   * Every other input behaves as `ManageDocsSpec`.
   */
  lemma AmbiguityEscapesManageDocs(t: Tables, tokens: seq<string>, input: DocData)
    ensures var w := ManageDocsAsWritten(t, tokens, input);
      w.result.Failure? <==> IssueMatch(t.docs, input).None? && Recover(t, input).Ambiguous?
    ensures var w := ManageDocsAsWritten(t, tokens, input);
      w.result.Failure? ==> w == After(Failure(TypeError), t, tokens)
    ensures var w := ManageDocsAsWritten(t, tokens, input);
      var m := ManageDocsSpec(t, tokens, input);
      w.result.Success? ==> w == After(Success(m.result), m.tables, m.tokens)
  {
    if IssueMatch(t.docs, input).None? && Recover(t, input).Ambiguous? {
      assert |Recover(t, input).ids| >= 2;
      AmbiguityEscapesAsWritten(Recover(t, input).ids);
    }
  }
}
