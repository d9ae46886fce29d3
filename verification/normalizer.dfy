/**
 * The input normaliser of `DocManager._load_input`
 * (scielo_v3_manager/pid_manager.py:185-237): truncation to the column
 * widths, defaults, the derived `issn`, the `issue_order` rule, the
 * `v3_origin` tag and the upper-casing of eleven fields. The step-by-step
 * version is `PidManager.DocManager.LoadInput`, proved equal to `Normalize`.
 */
module Normalizer {
  import opened Text
  import opened Schema

  /**
   * The arguments of `DocManager(...)`. A Python `None` is the empty
   * string here (every field goes through `x or ''`), except `issueOrder`,
   * which is the text `str(issue_order)` (so `None` arrives as "None").
   */
  datatype RawInput = RawInput(
    v2: string, v3: string, aop: string, filename: string, doi: string,
    status: string, pubYear: string, issueOrder: string,
    volume: string, number: string, suppl: string,
    elocation: string, fpage: string, lpage: string,
    firstAuthorSurname: string, lastAuthorSurname: string,
    articleTitle: string, otherPids: string)

  /** UPPER_CONTENTS: the keys the final loop upper-cases. */
  const UpperContents: seq<Key> :=
    [Doi, Elocation, Fpage, Lpage, Status, FirstAuthorSurname, LastAuthorSurname,
     ArticleTitle, Volume, Number, Suppl]

  /** `(issue_order[4:] or issue_order).zfill(4)`: drops the first four characters of a longer text. */
  function IssueOrder(s: string): string
  {
    Zfill(if Suffix(s, 4) != "" then Suffix(s, 4) else s, 4)
  }

  /** The dict as the successive assignments leave it, before the upper-casing loop. */
  function Loaded(raw: RawInput): DocData
  {
    var v2 := Prefix(raw.v2, 23);
    DocData(
      v2 := v2, v3 := raw.v3,
      v3Origin := if raw.v3 != "" then "provided" else "",
      aop := Prefix(raw.aop, 23), filename := Prefix(raw.filename, 50),
      doi := raw.doi, issn := Slice(v2, 1, 10),
      pubYear := raw.pubYear, issueOrder := IssueOrder(raw.issueOrder),
      volume := raw.volume, number := raw.number, suppl := raw.suppl,
      elocation := raw.elocation, fpage := raw.fpage, lpage := raw.lpage,
      firstAuthorSurname := Prefix(raw.firstAuthorSurname, 30),
      lastAuthorSurname := Prefix(raw.lastAuthorSurname, 30),
      articleTitle := Prefix(raw.articleTitle, 50),
      otherPids := Prefix(raw.otherPids, 200),
      status := Prefix(raw.status, 15))
  }

  /** `self._input_data` once `_load_input` has finished. */
  function Normalize(raw: RawInput): DocData
  {
    var l := Loaded(raw);
    l.(doi := Upper(l.doi), elocation := Upper(l.elocation),
       fpage := Upper(l.fpage), lpage := Upper(l.lpage), status := Upper(l.status),
       firstAuthorSurname := Upper(l.firstAuthorSurname),
       lastAuthorSurname := Upper(l.lastAuthorSurname),
       articleTitle := Upper(l.articleTitle),
       volume := Upper(l.volume), number := Upper(l.number), suppl := Upper(l.suppl))
  }

  /** Normalising at one key: upper-cased iff the key is in UPPER_CONTENTS. */
  lemma NormalizeAt(raw: RawInput, k: Key)
    ensures Get(Normalize(raw), k) ==
      if k in UpperContents then Upper(Get(Loaded(raw), k)) else Get(Loaded(raw), k)
  {
    var n, l := Normalize(raw), Loaded(raw);
    match k
    case V2 =>
    case V3 =>
    case V3Origin =>
    case Aop =>
    case Filename =>
    case Doi =>
    case Issn =>
    case PubYear =>
    case IssueOrder =>
    case Volume =>
    case Number =>
    case Suppl =>
    case Elocation =>
    case Fpage =>
    case Lpage =>
    case FirstAuthorSurname =>
    case LastAuthorSurname =>
    case ArticleTitle =>
    case OtherPids =>
    case Status =>
  }

  /** Exactly the keys of UPPER_CONTENTS are upper-cased; every other key keeps its loaded value. */
  lemma NormalizeUpperCasesExactly(raw: RawInput)
    ensures forall k ::
      Get(Normalize(raw), k) == if k in UpperContents then Upper(Get(Loaded(raw), k)) else Get(Loaded(raw), k)
  {
    forall k {
      NormalizeAt(raw, k);
    }
  }

  /**
   * Truncation: v2 and aop to 23, filename to 50, status to 15, each
   * surname to 30, article_title to 50 and other_pids to 200 characters,
   * each a prefix of the (upper-cased, where applicable) input; the other
   * fields keep their full length.
   */
  lemma NormalizeTruncates(raw: RawInput)
    ensures var d := Normalize(raw);
      && d.v2 <= raw.v2 && |d.v2| == Min(|raw.v2|, 23)
      && d.aop <= raw.aop && |d.aop| == Min(|raw.aop|, 23)
      && d.filename <= raw.filename && |d.filename| == Min(|raw.filename|, 50)
      && d.otherPids <= raw.otherPids && |d.otherPids| == Min(|raw.otherPids|, 200)
      && d.status <= Upper(raw.status) && |d.status| == Min(|raw.status|, 15)
      && d.firstAuthorSurname <= Upper(raw.firstAuthorSurname)
      && |d.firstAuthorSurname| == Min(|raw.firstAuthorSurname|, 30)
      && d.lastAuthorSurname <= Upper(raw.lastAuthorSurname)
      && |d.lastAuthorSurname| == Min(|raw.lastAuthorSurname|, 30)
      && d.articleTitle <= Upper(raw.articleTitle)
      && |d.articleTitle| == Min(|raw.articleTitle|, 50)
      && d.v3 == raw.v3 && d.pubYear == raw.pubYear
      && d.doi == Upper(raw.doi) && d.volume == Upper(raw.volume)
      && d.number == Upper(raw.number) && d.suppl == Upper(raw.suppl)
      && d.elocation == Upper(raw.elocation)
      && d.fpage == Upper(raw.fpage) && d.lpage == Upper(raw.lpage)
  {
    UpperOfPrefix(raw.status, 15);
    UpperOfPrefix(raw.firstAuthorSurname, 30);
    UpperOfPrefix(raw.lastAuthorSurname, 30);
    UpperOfPrefix(raw.articleTitle, 50);
  }

  /**
   * Case: the upper-cased keys hold no lower-case letter; v2, aop, v3,
   * filename, other_pids and pub_year keep their case.
   */
  lemma NormalizeCase(raw: RawInput)
    ensures forall k :: k in UpperContents ==> IsUpper(Get(Normalize(raw), k))
    ensures var d := Normalize(raw);
      d.v2 <= raw.v2 && d.aop <= raw.aop && d.filename <= raw.filename &&
      d.otherPids <= raw.otherPids && d.v3 == raw.v3 && d.pubYear == raw.pubYear
  {
    NormalizeUpperCasesExactly(raw);
    forall k | k in UpperContents ensures IsUpper(Get(Normalize(raw), k)) {
      UpperIsUpper(Get(Loaded(raw), k));
    }
  }

  /** `issn` is characters 1..9 of the truncated v2; `v3_origin` is 'provided' iff a v3 was given. */
  lemma NormalizeDerived(raw: RawInput)
    ensures var d := Normalize(raw);
      && |d.issn| <= 9
      && (forall i :: 0 <= i < |d.issn| ==> d.issn[i] == d.v2[i + 1])
      && (|raw.v2| >= 10 ==> d.issn == raw.v2[1..10])
      && (d.v3Origin == "provided" <==> raw.v3 != "")
      && (raw.v3 == "" ==> d.v3Origin == "")
  {
  }

  /**
   * `issue_order`: at most 8 characters give exactly 4; a longer text
   * loses only its first four characters; an unsigned short text is
   * left-padded with '0'.
   */
  lemma IssueOrderShape(s: string)
    ensures |s| <= 8 ==> |IssueOrder(s)| == 4
    ensures |s| > 8 ==> IssueOrder(s) == s[4..]
    ensures 0 < |s| <= 4 && s[0] != '+' && s[0] != '-' ==> IssueOrder(s) == Zeros(4 - |s|) + s
    ensures 4 < |s| <= 8 && s[4] != '+' && s[4] != '-' ==> IssueOrder(s) == Zeros(8 - |s|) + s[4..]
  {
    var kept := if Suffix(s, 4) != "" then Suffix(s, 4) else s;
    ZfillShape(kept, 4);
  }

  /** The examples: '1' gives '0001', '1111' stays, '20231' gives '0001', and `None` stays 'None'. */
  lemma IssueOrderExamples()
    ensures IssueOrder("1") == "0001"
    ensures IssueOrder("1111") == "1111"
    ensures IssueOrder("20231") == "0001"
    ensures IssueOrder("None") == "None"
  {
    IssueOrderShape("1");
    IssueOrderShape("20231");
  }
}
