/**
 * The MongoDB document of the earlier PID store (scielo_v3_manager/models.py):
 * the `DocsIds` record and the collection it is saved in, `create_obj`,
 * `complete_data`, the `prefixes` rule and the URI `db_connect` builds.
 * A missing (None) value is the empty string, list or map.
 */
module Models {
  import opened Wrappers
  import opened Text
  import opened Seqs

  /** A stored `DocsIds` document (timestamps left out). */
  datatype DocsRecord = DocsRecord(
    id: string, v1: string, v2: string, v3: string, aop: string, others: seq<string>,
    doi: string, filename: string, prefixes: seq<string>, fields: map<string, string>, status: string)

  /** The values `create_obj` and `complete_data` take after the object: `_id, doi, filename, v2, aop, v3, status, v1, others, fields`. */
  datatype DocsArgs = DocsArgs(
    id: string, doi: string, filename: string, v2: string, aop: string, v3: string,
    status: string, v1: string, others: seq<string>, fields: map<string, string>)

  /** `[v[:-5] for v in (v2, aop) if v]` */
  function Prefixes(v2: string, aop: string): (r: seq<string>)
    ensures |r| == (if v2 != "" then 1 else 0) + (if aop != "" then 1 else 0)
    ensures v2 != "" ==> r[0] == DropLast(v2, 5)
    ensures aop != "" ==> r[|r| - 1] == DropLast(aop, 5)
  {
    (if v2 != "" then [DropLast(v2, 5)] else []) + (if aop != "" then [DropLast(aop, 5)] else [])
  }

  /** The ValueError `create_obj`, `_update` and `register` raise for a missing v2 or v3. */
  datatype ValueError = MissingV2OrV3(v2: string, v3: string)

  /** `create_obj(...)`: a new record from the arguments, with defaults for the missing ones. */
  function CreateObj(a: DocsArgs): (r: Result<DocsRecord, ValueError>)
    ensures r.Failure? <==> a.v2 == "" || a.v3 == ""
    ensures r.Success? ==>
      && r.value.id == a.id && r.value.v2 == a.v2 && r.value.v3 == a.v3
      && r.value.doi == a.doi && r.value.filename == a.filename && r.value.v1 == a.v1 && r.value.aop == a.aop
      && r.value.others == a.others && r.value.fields == a.fields
      && r.value.status == (if a.status != "" then a.status else "active")
      && r.value.prefixes == Prefixes(a.v2, a.aop)
  {
    if a.v3 == "" || a.v2 == "" then Failure(MissingV2OrV3(a.v2, a.v3))
    else
      Success(DocsRecord(a.id, OrElse(a.v1, ""), a.v2, a.v3, OrElse(a.aop, ""), a.others,
                         OrElse(a.doi, ""), OrElse(a.filename, ""), Prefixes(a.v2, a.aop), a.fields,
                         OrElse(a.status, "active")))
  }

  /** `new or old or default` for a field. */
  function Merged(given: string, current: string, fallback: string): string
  {
    OrElse(OrElse(given, current), fallback)
  }

  /** The argument if non-empty, else the existing value if non-empty, else the default. */
  lemma MergedMeaning(given: string, current: string, fallback: string)
    ensures given != "" ==> Merged(given, current, fallback) == given
    ensures given == "" && current != "" ==> Merged(given, current, fallback) == current
    ensures given == "" && current == "" ==> Merged(given, current, fallback) == fallback
  {
  }

  /** The record `complete_data` leaves: a field-wise merge, with prefixes recomputed. */
  function Completed(r: DocsRecord, a: DocsArgs): DocsRecord
  {
    var v2, aop := Merged(a.v2, r.v2, ""), Merged(a.aop, r.aop, "");
    DocsRecord(
      r.id, Merged(a.v1, r.v1, ""), v2, Merged(a.v3, r.v3, ""), aop,
      if a.others != [] then a.others else r.others,
      Merged(a.doi, r.doi, ""), Merged(a.filename, r.filename, ""), Prefixes(v2, aop),
      if a.fields != map[] then a.fields else r.fields,
      Merged(a.status, r.status, "active"))
  }

  /**
   * `complete_data` never touches `_id`, never blanks a non-empty field
   * with an empty argument, sets the status to 'active' when neither
   * side has one and derives prefixes from the merged v2 and aop.
   */
  lemma CompletedKeepsWhatExists(r: DocsRecord, a: DocsArgs)
    ensures var c := Completed(r, a);
      && c.id == r.id
      && (r.doi != "" ==> c.doi != "") && (r.filename != "" ==> c.filename != "") && (r.v1 != "" ==> c.v1 != "")
      && (r.v2 != "" ==> c.v2 != "") && (r.v3 != "" ==> c.v3 != "") && (r.aop != "" ==> c.aop != "")
      && (r.others != [] ==> c.others != []) && (r.fields != map[] ==> c.fields != map[])
      && c.status != ""
      && c.prefixes == Prefixes(c.v2, c.aop)
      && (a.v2 == "" && a.aop == "" ==> c.prefixes == Prefixes(r.v2, r.aop))
  {
  }

  /** Applying `complete_data` twice with the same arguments changes nothing further. */
  lemma CompletedIdempotent(r: DocsRecord, a: DocsArgs)
    ensures Completed(Completed(r, a), a) == Completed(r, a)
  {
  }

  /** A `DocsIds` object: a document in memory whose fields the helpers assign. */
  class DocsIds {
    var id: string
    var v1: string
    var v2: string
    var v3: string
    var aop: string
    var others: seq<string>
    var doi: string
    var filename: string
    var prefixes: seq<string>
    var fields: map<string, string>
    var status: string

    /** `DocsIds()`: every field missing. */
    constructor ()
      ensures Value() == DocsRecord("", "", "", "", "", [], "", "", [], map[], "")
    {
      id, v1, v2, v3, aop, others := "", "", "", "", "", [];
      doi, filename, prefixes, fields, status := "", "", [], map[], "";
    }

    /** `DocsIds(**record)`: a document loaded from the collection. */
    constructor Load(r: DocsRecord)
      ensures Value() == r
    {
      id, v1, v2, v3, aop, others := r.id, r.v1, r.v2, r.v3, r.aop, r.others;
      doi, filename, prefixes, fields, status := r.doi, r.filename, r.prefixes, r.fields, r.status;
    }

    function Value(): DocsRecord
      reads this
    {
      DocsRecord(id, v1, v2, v3, aop, others, doi, filename, prefixes, fields, status)
    }
  }

  /** `complete_data(obj, _id, doi, filename, v2, aop, v3, status, v1, others, fields)` */
  method CompleteData(obj: DocsIds, a: DocsArgs) returns (r: DocsIds)
    modifies obj
    ensures r == obj
    ensures obj.Value() == Completed(old(obj.Value()), a)
  {
    var c := Completed(obj.Value(), a);
    obj.doi, obj.filename, obj.v1, obj.v2, obj.v3, obj.aop := c.doi, c.filename, c.v1, c.v2, c.v3, c.aop;
    obj.others, obj.fields, obj.status, obj.prefixes := c.others, c.fields, c.status, c.prefixes;
    r := obj;
  }

  /** `save()` keyed on `_id`: the document replaces the one with its id, or is appended. */
  function Upsert(records: seq<DocsRecord>, r: DocsRecord): seq<DocsRecord>
  {
    match FirstIndex(records, (x: DocsRecord) => x.id == r.id)
    case Some(i) => records[i := r]
    case None => records + [r]
  }

  /**
   * After a save the document is stored, every document with another id is
   * still there, and a document under a new id is appended.
   */
  lemma UpsertMeaning(records: seq<DocsRecord>, r: DocsRecord)
    ensures r in Upsert(records, r)
    ensures (forall x :: x in records ==> x.id != r.id) ==> Upsert(records, r) == records + [r]
    ensures |Upsert(records, r)| == |records| + (if exists x :: x in records && x.id == r.id then 0 else 1)
    ensures forall x :: x in records && x.id != r.id ==> x in Upsert(records, r)
    ensures forall x :: x in Upsert(records, r) ==> x == r || x in records
  {
    var s := Upsert(records, r);
    match FirstIndex(records, (x: DocsRecord) => x.id == r.id)
    case Some(i) =>
      assert s[i] == r;
      forall x | x in records && x.id != r.id ensures x in s {
        var j :| 0 <= j < |records| && records[j] == x;
        assert s[j] == x;
      }
      forall x | x in s ensures x == r || x in records {
        var j :| 0 <= j < |s| && s[j] == x;
        if j != i {
          assert records[j] == x;
        }
      }
      assert records[i] in records;
    case None =>
      assert s[|records|] == r;
  }

  /** The `documents_pids` collection. */
  class Collection {
    var records: seq<DocsRecord>

    constructor (records: seq<DocsRecord>)
      ensures this.records == records
    {
      this.records := records;
    }

    /** `obj.save()` */
    method Save(obj: DocsIds)
      modifies this
      ensures records == Upsert(old(records), obj.Value())
    {
      records := Upsert(records, obj.Value());
    }
  }

  /** `"{}".format(password)`: a missing password is written as 'None'. */
  function Shown(password: Option<string>): string
  {
    match password
    case None => "None"
    case Some(p) => p
  }

  /** The `mongodb://{creds}{host}{port}/{database}` template with the password already written out. */
  function FormatUri(host: string, port: Option<nat>, schema: string, login: string, password: string): string
  {
    "mongodb://"
    + (if login != "" then login + ":" + password + "@" else "")
    + host
    + (if port.None? then "" else ":" + NatToStr(port.value))
    + "/" + schema
  }

  /** The URI `db_connect` connects to; a login without a password gives `login:None@`. */
  function DbConnectUri(host: string, port: Option<nat>, schema: string, login: string, password: Option<string>): string
  {
    FormatUri(host, port, schema, login, Shown(password))
  }

  /** The part of `s` before the first `c`, and the part after it. */
  function SplitAt(s: string, c: char): (r: Option<(string, string)>)
    ensures r.None? <==> c !in s
    ensures r.Some? ==> s == r.value.0 + [c] + r.value.1 && c !in r.value.0
  {
    if s == [] then None
    else if s[0] == c then Some(([], s[1..]))
    else
      match SplitAt(s[1..], c)
      case None => None
      case Some((before, after)) => Some(([s[0]] + before, after))
  }

  lemma {:induction false} SplitAtJoin(a: string, c: char, b: string)
    requires c !in a
    ensures SplitAt(a + [c] + b, c) == Some((a, b))
  {
    if a == [] {
      assert a + [c] + b == [c] + b;
      assert ([c] + b)[1..] == b;
    } else {
      assert (a + [c] + b)[1..] == a[1..] + [c] + b;
      SplitAtJoin(a[1..], c, b);
      assert [a[0]] + a[1..] == a;
    }
  }

  /** The connection parameters of a `db_connect` URI. */
  datatype Connection = Connection(host: string, port: Option<nat>, schema: string, login: string, password: string)

  /** The login, password and `host[:port]` of the authority part of a URI. */
  function ParseAuthority(authority: string): (string, string, string)
  {
    match SplitAt(authority, '@')
    case None => ("", "", authority)
    case Some((creds, rest)) =>
      match SplitAt(creds, ':')
      case None => (creds, "", rest)
      case Some((l, p)) => (l, p, rest)
  }

  /** The host and port of `host[:port]`; None when the port is not a number. */
  function ParseHostPort(hostPort: string): Option<(string, Option<nat>)>
  {
    match SplitAt(hostPort, ':')
    case None => Some((hostPort, None))
    case Some((host, digits)) =>
      if digits != "" && forall i :: 0 <= i < |digits| ==> IsDigit(digits[i])
      then Some((host, Some(DigitsToNat(digits))))
      else None
  }

  /** Reads a URI of the shape `db_connect` builds back into its parameters. */
  function ParseUri(uri: string): Option<Connection>
  {
    if |uri| < 10 || uri[..10] != "mongodb://" then None
    else
      match SplitAt(uri[10..], '/')
      case None => None
      case Some((authority, schema)) =>
        var (login, password, hostPort) := ParseAuthority(authority);
        match ParseHostPort(hostPort)
        case None => None
        case Some((host, port)) => Some(Connection(host, port, schema, login, password))
  }

  /** A text free of the URI's separators. */
  predicate Plain(s: string)
  {
    ':' !in s && '@' !in s && '/' !in s
  }

  lemma AuthorityRoundTrip(login: string, password: string, hostPort: string)
    requires Plain(login) && Plain(password) && '@' !in hostPort
    ensures ParseAuthority((if login != "" then login + ":" + password + "@" else "") + hostPort)
      == (login, if login != "" then password else "", hostPort)
  {
    if login != "" {
      var authority := (login + ":" + password + "@") + hostPort;
      assert authority == (login + ":" + password) + "@" + hostPort;
      assert '@' !in login + ":" + password;
      SplitAtJoin(login + ":" + password, '@', hostPort);
      assert login + ":" + password == login + [':'] + password;
      SplitAtJoin(login, ':', password);
    } else {
      assert "" + hostPort == hostPort;
      assert SplitAt(hostPort, '@').None?;
    }
  }

  lemma HostPortRoundTrip(host: string, port: Option<nat>)
    requires Plain(host)
    ensures ParseHostPort(host + (if port.None? then "" else ":" + NatToStr(port.value))) == Some((host, port))
  {
    if port.Some? {
      var digits := NatToStr(port.value);
      assert host + (":" + digits) == host + [':'] + digits;
      SplitAtJoin(host, ':', digits);
      DigitsRoundTrip(port.value);
    } else {
      assert host + "" == host;
    }
  }

  /** Reading the URI template back gives every parameter it was filled with. */
  lemma FormatUriRoundTrip(host: string, port: Option<nat>, schema: string, login: string, password: string)
    requires Plain(host) && Plain(login) && Plain(password) && '/' !in schema
    ensures ParseUri(FormatUri(host, port, schema, login, password)) ==
      Some(Connection(host, port, schema, login, if login != "" then password else ""))
  {
    var creds := if login != "" then login + ":" + password + "@" else "";
    var portPart := if port.None? then "" else ":" + NatToStr(port.value);
    var hostPort := host + portPart;
    var authority := creds + hostPort;
    var uri := FormatUri(host, port, schema, login, password);
    assert uri == "mongodb://" + (authority + "/" + schema);
    assert uri[..10] == "mongodb://" && uri[10..] == authority + "/" + schema;
    if port.Some? {
      DigitsRoundTrip(port.value);
      forall i | 0 <= i < |NatToStr(port.value)| ensures NatToStr(port.value)[i] !in ":@/" {
      }
    }
    assert '/' !in portPart && '@' !in portPart;
    assert '/' !in authority && '@' !in hostPort;
    SplitAtJoin(authority, '/', schema);
    AuthorityRoundTrip(login, password, hostPort);
    HostPortRoundTrip(host, port);
  }

  /**
   * The URI carries every parameter: reading it back gives the host,
   * port, database and login, and, whenever a login is given, the password
   * or 'None' for a missing one.
   */
  lemma DbConnectUriRoundTrip(host: string, port: Option<nat>, schema: string, login: string, password: Option<string>)
    requires Plain(host) && Plain(login) && Plain(Shown(password)) && '/' !in schema
    ensures ParseUri(DbConnectUri(host, port, schema, login, password)) ==
      Some(Connection(host, port, schema, login, if login != "" then Shown(password) else ""))
    ensures login != "" && password.None? ==> ParseUri(DbConnectUri(host, port, schema, login, password)).value.password == "None"
  {
    FormatUriRoundTrip(host, port, schema, login, Shown(password));
  }
}
