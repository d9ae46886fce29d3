/**
 * `register` of scielo_v3_manager/manager.py. Its lookups are those of
 * scielo_v3_manager/manage.py (module MongoManage); it completes the found
 * or fresh record with `complete_data` (module Models), refuses a record
 * without v2 or v3, saves it, and turns every exception into a None result.
 * The `generates()` it calls is the token supply of module Generator.
 */
module MongoManager {
  import opened Wrappers
  import opened Models
  import opened Generator
  import opened MongoManage

  /** Python's `TypeError` for a call whose positional arguments do not fit the parameters. */
  datatype CallError = MissingArguments(names: seq<string>) | TooManyArguments(count: nat)

  /** Binding positional arguments to parameters: each parameter with the argument in its place. */
  function BindPositional(params: seq<string>, args: seq<string>): (r: Result<seq<(string, string)>, CallError>)
    ensures r.Success? <==> |args| == |params|
    ensures r.Success? ==> |r.value| == |params| && forall i :: 0 <= i < |params| ==> r.value[i] == (params[i], args[i])
    ensures |args| < |params| ==> r == Failure(MissingArguments(params[|args|..]))
  {
    if |args| > |params| then Failure(TooManyArguments(|args|))
    else if |args| < |params| then Failure(MissingArguments(params[|args|..]))
    else Success(seq(|params|, i requires 0 <= i < |params| => (params[i], args[i])))
  }

  /** The parameters of `complete_data`. */
  const CompleteDataParams: seq<string> :=
    ["obj", "_id", "doi", "filename", "v2", "aop", "v3", "status", "v1", "others", "fields"]

  /** The arguments `register` passes to `complete_data`: `_id` is left out. */
  const RegisterCallArgs: seq<string> :=
    ["obj", "doi", "filename", "v2", "aop", "v3", "status", "v1", "others", "fields"]

  /** The same call with v3 in the `_id` slot. */
  const IntendedCallArgs: seq<string> :=
    ["obj", "v3", "doi", "filename", "v2", "aop", "v3", "status", "v1", "others", "fields"]

  /**
   * The call in `register` raises TypeError for the missing `fields`, and
   * its arguments sit one place off from the parameters (doi would land in
   * `_id`); the intended call puts every argument under its own name.
   */
  lemma CompleteDataCall()
    ensures BindPositional(CompleteDataParams, RegisterCallArgs) == Failure(MissingArguments(["fields"]))
    ensures RegisterCallArgs[1] == "doi" && CompleteDataParams[1] == "_id"
    ensures BindPositional(CompleteDataParams, IntendedCallArgs).Success?
    ensures forall i :: 0 <= i < |CompleteDataParams| && i != 1 ==> IntendedCallArgs[i] == CompleteDataParams[i]
  {
    assert CompleteDataParams[|RegisterCallArgs|..] == ["fields"];
  }

  /** The result of `register` (None when it printed an exception), the collection after it and the generator's tokens. */
  datatype Attempt = Attempt(result: Option<DocsRecord>, records: seq<DocsRecord>, tokens: seq<string>)

  /** `register` when nothing is found and no v3 is given draws one token from `generates()`. */
  predicate Draws(records: seq<DocsRecord>, a: DocsArgs)
  {
    a.v3 == "" && Get(records, a.doi, a.filename, a.v2, a.aop, a.v3).None?
  }

  /**
   * `register` as written: a token may be drawn, then the call to
   * `complete_data` raises TypeError, the except clause prints it and the
   * function returns None without saving anything.
   */
  function RegisterAsWrittenSpec(records: seq<DocsRecord>, tokens: seq<string>, a: DocsArgs): Attempt
  {
    Attempt(None, records, if Draws(records, a) && tokens != [] then tokens[1..] else tokens)
  }

  /**
   * A call with v2 and v3 given, which the corrected `register` always
   * saves, is lost as written: None, and the collection unchanged.
   */
  lemma ArityMismatchLosesSave(records: seq<DocsRecord>, tokens: seq<string>, a: DocsArgs)
    requires a.v2 != "" && a.v3 != ""
    ensures RegisterAsWrittenSpec(records, tokens, a) == Attempt(None, records, tokens)
    ensures RegisterIntendedSpec(records, tokens, a).result.Some?
    ensures RegisterIntendedSpec(records, tokens, a).result.value in RegisterIntendedSpec(records, tokens, a).records
  {
    RegisterIntendedMeaning(records, tokens, a);
  }

  /** `register` as written, over the collection and the generator. */
  method RegisterAsWritten(coll: Collection, gen: TokenSupply, a: DocsArgs) returns (r: Option<DocsRecord>)
    modifies gen
    ensures RegisterAsWrittenSpec(old(coll.records), old(gen.tokens), a) == Attempt(r, coll.records, gen.tokens)
  {
    var found := Get(coll.records, a.doi, a.filename, a.v2, a.aop, a.v3);
    if found.None? && a.v3 == "" {
      var token := gen.Next();
      if token.None? {
        return None;
      }
    }
    var call := BindPositional(CompleteDataParams, RegisterCallArgs);
    assert call.Failure?;
    r := None;
  }

  /**
   * The record the corrected `register` starts from: the one `get` found,
   * or a new `DocsIds` keyed by its v3, as `create_obj` and `_update` key
   * the records they build.
   */
  function Start(records: seq<DocsRecord>, a: DocsArgs, v3: string): DocsRecord
  {
    match Get(records, a.doi, a.filename, a.v2, a.aop, a.v3)
    case Some(found) => found
    case None => DocsRecord(v3, "", "", "", "", [], "", "", [], map[], "")
  }

  /**
   * `register` with the `complete_data` call corrected and a new record
   * keyed by its v3: the found or new record is completed, refused when it
   * lacks v2 or v3, and otherwise saved and returned.
   */
  function RegisterIntendedSpec(records: seq<DocsRecord>, tokens: seq<string>, a: DocsArgs): Attempt
  {
    var draw := Draws(records, a);
    if draw && tokens == [] then Attempt(None, records, tokens)
    else
      var v3 := if draw then tokens[0] else a.v3;
      var rest := if draw then tokens[1..] else tokens;
      var c := Completed(Start(records, a, v3), a.(id := v3, v3 := v3));
      if c.v3 == "" || c.v2 == "" then Attempt(None, records, rest)
      else Attempt(Some(c), Upsert(records, c), rest)
  }

  /**
   * The corrected `register` draws a token exactly when nothing is found
   * and no v3 is given; it never saves a record without v2 or v3, saves
   * nothing when it returns None, and otherwise stores the record it
   * returns while every record under another key stays. A found record
   * keeps its key and, when no v3 is given, its v3; a new record is keyed
   * by its v3, so it replaces nothing unless that key is already stored.
   */
  lemma RegisterIntendedMeaning(records: seq<DocsRecord>, tokens: seq<string>, a: DocsArgs)
    ensures var g := RegisterIntendedSpec(records, tokens, a);
      && (g.tokens != tokens <==> Draws(records, a) && tokens != [])
      && (g.tokens != tokens ==> g.tokens == tokens[1..])
      && (g.result.None? ==> g.records == records)
      && (g.result.Some? ==> g.result.value.v2 != "" && g.result.value.v3 != "" && g.result.value in g.records)
      && (g.result.Some? ==> forall x :: x in records && x.id != g.result.value.id ==> x in g.records)
      && (g.result.Some? ==> forall x :: x in g.records ==> x == g.result.value || x in records)
    ensures var found := Get(records, a.doi, a.filename, a.v2, a.aop, a.v3);
      var g := RegisterIntendedSpec(records, tokens, a);
      found.Some? && g.result.Some? ==>
        && g.result.value.id == found.value.id
        && (a.v3 == "" ==> g.result.value.v3 == found.value.v3)
    ensures var found := Get(records, a.doi, a.filename, a.v2, a.aop, a.v3);
      var g := RegisterIntendedSpec(records, tokens, a);
      found.None? && g.result.Some? ==>
        && g.result.value.id == g.result.value.v3
        && (a.v3 != "" ==> g.result.value.v3 == a.v3)
        && ((forall x :: x in records ==> x.id != g.result.value.id) ==> g.records == records + [g.result.value])
    ensures a.v2 != "" && a.v3 != "" ==> RegisterIntendedSpec(records, tokens, a).result.Some?
  {
    var g := RegisterIntendedSpec(records, tokens, a);
    var draw := Draws(records, a);
    var v3 := if draw && tokens != [] then tokens[0] else a.v3;
    if draw && tokens != [] {
      assert |tokens[1..]| < |tokens|;
    }
    if g.result.Some? {
      UpsertMeaning(records, g.result.value);
    }
    var found := Get(records, a.doi, a.filename, a.v2, a.aop, a.v3);
    if found.Some? {
      MergedMeaning(a.v3, found.value.v3, "");
    } else {
      MergedMeaning(v3, "", "");
    }
    if a.v2 != "" && a.v3 != "" {
      MergedMeaning(a.v2, Start(records, a, v3).v2, "");
      MergedMeaning(a.v3, Start(records, a, v3).v3, "");
    }
  }

  /** `register` with the corrected call, over the collection and the generator. */
  method RegisterIntended(coll: Collection, gen: TokenSupply, a: DocsArgs) returns (r: Option<DocsRecord>)
    modifies coll, gen
    ensures RegisterIntendedSpec(old(coll.records), old(gen.tokens), a) == Attempt(r, coll.records, gen.tokens)
  {
    var found := Get(coll.records, a.doi, a.filename, a.v2, a.aop, a.v3);
    var obj: DocsIds;
    var v3 := a.v3;
    if found.None? {
      obj := new DocsIds();
      if v3 == "" {
        var token := gen.Next();
        if token.None? {
          return None;
        }
        v3 := token.value;
      }
      obj.id := v3;
    } else {
      obj := new DocsIds.Load(found.value);
    }
    obj := CompleteData(obj, a.(id := v3, v3 := v3));
    if obj.v3 == "" || obj.v2 == "" {
      return None;
    }
    coll.Save(obj);
    r := Some(obj.Value());
  }
}
