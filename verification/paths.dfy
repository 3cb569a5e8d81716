/**
 * Path derivation: the cluster directory of a record (language, category,
 * reveal year and quarter), its file name, and the filter that recognises
 * record files in a listing of the remote repository.
 */
module Paths {
  import opened Optional
  import opened Strings
  import opened Seqs
  import opened Calendar
  import opened Records

  datatype PathError = InvalidLanguage(language: string) | InvalidCategory(category: string)

  /** A calendar year and a quarter 1..4, as `getQuarter` reports them. */
  datatype YearQuarter = YearQuarter(year: int, quarter: int)

  /** The quarter holding a month: the ceiling of month / 3. */
  function QuarterOfMonth(month: int): (q: int)
    requires 1 <= month <= 12
    ensures 1 <= q <= 4
    ensures 3 * (q - 1) < month <= 3 * q
  {
    (month + 2) / 3
  }

  /** "Q1" … "Q4" */
  function QuarterLabel(q: int): string
    requires 1 <= q <= 4
  {
    "Q" + [DigitChar(q)]
  }

  /** Year and quarter of a timestamp. */
  function GetQuarter(ts: int): (r: YearQuarter)
    ensures 1 <= r.quarter <= 4
    ensures r.year == CivilOf(ts).year
    ensures 3 * (r.quarter - 1) < CivilOf(ts).month <= 3 * r.quarter
  {
    var c := CivilOf(ts);
    YearQuarter(c.year, QuarterOfMonth(c.month))
  }

  /** Directory segments, each followed by '/'. */
  function DirOf(segments: seq<string>): (r: string)
    ensures |segments| > 0 ==> |r| > 0 && r[|r| - 1] == '/'
  {
    if |segments| == 0 then "" else segments[0] + "/" + DirOf(segments[1..])
  }

  /** The four directory levels below the root: language, category, year, quarter. */
  function ClusterSegments(language: string, category: string, yq: YearQuarter): seq<string>
    requires 1 <= yq.quarter <= 4
  {
    [language, category, IntToString(yq.year), QuarterLabel(yq.quarter)]
  }

  /** `data/predictions/<language>/<category>/<year>/Q<n>/` */
  function ClusterDir(language: string, category: string, yq: YearQuarter): string
    requires 1 <= yq.quarter <= 4
  {
    BasePath + DirOf(ClusterSegments(language, category, yq))
  }

  /**
   * The cluster directory of a record; an unconfigured language or
   * category is an error, the language being checked first.
   */
  function ClusterPath(p: Record): (r: Result<string, PathError>)
    ensures r.Ok? <==> ValidClassification(p.language, p.category)
    ensures p.language !in Languages ==> r == Err(InvalidLanguage(p.language))
    ensures p.language in Languages && p.category !in Categories ==> r == Err(InvalidCategory(p.category))
    ensures r.Ok? ==> r.value == ClusterDir(p.language, p.category, GetQuarter(p.revealDate))
  {
    if p.language !in Languages then Err(InvalidLanguage(p.language))
    else if p.category !in Categories then Err(InvalidCategory(p.category))
    else
      var date := CivilOf(p.revealDate);
      var quarter := QuarterOfMonth(date.month);
      Ok(BasePath + DirOf([p.language, p.category, IntToString(date.year), QuarterLabel(quarter)]))
  }

  /**
   * `pred_<id>_<created>.json`: the name has the record-file shape, and
   * between its prefix and its extension lie the id and the creation time;
   * FilenameInjective reads both back.
   */
  function PredictionFilename(p: Record): (r: string)
    ensures StartsWith(r, "pred_") && EndsWith(r, ".json")
    ensures |r| == |p.id| + |IntToString(p.created)| + 11
    ensures r[5..|r| - 5] == p.id + "_" + IntToString(p.created)
  {
    var r := "pred_" + p.id + "_" + IntToString(p.created) + ".json";
    assert r == "pred_" + (p.id + "_" + IntToString(p.created)) + ".json";
    r
  }

  /** The cluster directory followed by the file name. */
  function PredictionPath(p: Record): (r: Result<string, PathError>)
    ensures r.Ok? <==> ValidClassification(p.language, p.category)
    ensures r.Err? ==> r == ClusterPath(p)
    ensures r.Ok? ==> r.value == ClusterPath(p).value + PredictionFilename(p)
  {
    match ClusterPath(p)
    case Ok(dir) => Ok(dir + PredictionFilename(p))
    case Err(e) => Err(e)
  }

  /** An entry of the remote repository's recursive tree listing. */
  datatype TreeItem = TreeItem(path: string, kind: string)

  /** The listing filter: a blob under the root whose name has the record-file shape. */
  predicate IsPredictionFile(item: TreeItem) {
    && StartsWith(item.path, BasePath)
    && Contains(item.path, "/pred_")
    && EndsWith(item.path, ".json")
    && item.kind == "blob"
  }

  /** The record files of a tree listing, in listing order. */
  function PredictionFiles(tree: seq<TreeItem>): (r: seq<TreeItem>)
    ensures forall x :: x in r <==> x in tree && IsPredictionFile(x)
    ensures Subsequence(r, tree)
  {
    FilterIsSubsequence(tree, IsPredictionFile);
    Filter(tree, IsPredictionFile)
  }

  /** A non-empty directory followed by a record file name contains "/pred_" and ends in ".json". */
  lemma RecordFileShape(root: string, segs: seq<string>, name: string)
    requires |segs| > 0
    requires StartsWith(name, "pred_") && EndsWith(name, ".json")
    ensures StartsWith(root + DirOf(segs) + name, root)
    ensures Contains(root + DirOf(segs) + name, "/pred_")
    ensures EndsWith(root + DirOf(segs) + name, ".json")
  {
    var d := DirOf(segs);
    var path := root + d + name;
    assert path == root + (d + name);
    StartsWithAppend(root, d + name);
    var head := root + d[..|d| - 1];
    assert root + d == head + "/";
    assert path == head + ("/" + name);
    assert ("/" + name)[..6] == "/" + name[..5];
    ContainsAfter(head, "/" + name, "/pred_");
    EndsWithAppend(root + d, name, ".json");
  }

  /** Every path the deriver produces is picked up by the listing filter. */
  lemma PredictionPathListed(p: Record)
    requires PredictionPath(p).Ok?
    ensures IsPredictionFile(TreeItem(PredictionPath(p).value, "blob"))
  {
    var name := PredictionFilename(p);
    var segs := ClusterSegments(p.language, p.category, GetQuarter(p.revealDate));
    assert PredictionPath(p).value == BasePath + DirOf(segs) + name;
    assert name == "pred_" + (p.id + "_" + IntToString(p.created) + ".json");
    assert name == ("pred_" + p.id + "_" + IntToString(p.created)) + ".json";
    RecordFileShape(BasePath, segs, name);
  }

  lemma NoSlashInConfigured()
    ensures forall l :: l in Languages ==> '/' !in l
    ensures forall c :: c in Categories ==> '/' !in c
  {
  }

  lemma NoSeparatorInNumber(i: int)
    ensures '/' !in IntToString(i) && '_' !in IntToString(i)
  {
    IntToStringChars(i);
  }

  /** Equal-length runs of '/'-free segments followed by anything split back uniquely. */
  lemma {:induction false} DirOfSplit(a: seq<string>, f: string, b: seq<string>, g: string)
    requires |a| == |b|
    requires forall i :: 0 <= i < |a| ==> '/' !in a[i] && '/' !in b[i]
    requires DirOf(a) + f == DirOf(b) + g
    ensures a == b && f == g
  {
    if |a| > 0 {
      assert DirOf(a) + f == a[0] + "/" + (DirOf(a[1..]) + f);
      assert DirOf(b) + g == b[0] + "/" + (DirOf(b[1..]) + g);
      SplitAtFirst(a[0], DirOf(a[1..]) + f, b[0], DirOf(b[1..]) + g, '/');
      DirOfSplit(a[1..], f, b[1..], g);
      assert a == [a[0]] + a[1..];
      assert b == [b[0]] + b[1..];
    } else {
      assert DirOf(a) + f == f && DirOf(b) + g == g;
    }
  }

  /** The file name gives back the id and the creation time. */
  lemma FilenameInjective(p: Record, q: Record)
    requires PredictionFilename(p) == PredictionFilename(q)
    ensures p.id == q.id && p.created == q.created
  {
    var cp, cq := IntToString(p.created), IntToString(q.created);
    NoSeparatorInNumber(p.created);
    NoSeparatorInNumber(q.created);
    var fp, fq := PredictionFilename(p), PredictionFilename(q);
    assert fp == "pred_" + (p.id + "_" + cp) + ".json";
    assert fq == "pred_" + (q.id + "_" + cq) + ".json";
    assert p.id + "_" + cp == fp[5..|fp| - 5];
    assert q.id + "_" + cq == fq[5..|fq| - 5];
    SplitAtLast(p.id, cp, q.id, cq, '_');
    IntToStringInjective(p.created, q.created);
  }

  /**
   * Distinct records get distinct files: a path determines the record's
   * id, creation time, classification and reveal quarter.
   */
  lemma PredictionPathInjective(p: Record, q: Record)
    requires PredictionPath(p).Ok? && PredictionPath(q).Ok?
    requires PredictionPath(p).value == PredictionPath(q).value
    ensures p.id == q.id && p.created == q.created
    ensures p.language == q.language && p.category == q.category
    ensures GetQuarter(p.revealDate) == GetQuarter(q.revealDate)
  {
    NoSlashInConfigured();
    var yp, yq := GetQuarter(p.revealDate), GetQuarter(q.revealDate);
    NoSeparatorInNumber(yp.year);
    NoSeparatorInNumber(yq.year);
    var sp := ClusterSegments(p.language, p.category, yp);
    var sq := ClusterSegments(q.language, q.category, yq);
    var fp, fq := PredictionFilename(p), PredictionFilename(q);
    assert PredictionPath(p).value == BasePath + DirOf(sp) + fp;
    assert PredictionPath(q).value == BasePath + DirOf(sq) + fq;
    StripPrefix(BasePath, DirOf(sp), fp, DirOf(sq), fq);
    DirOfSplit(sp, fp, sq, fq);
    assert sp[2] == sq[2] && sp[3] == sq[3];
    IntToStringInjective(yp.year, yq.year);
    assert DigitChar(yp.quarter) == QuarterLabel(yp.quarter)[1] == QuarterLabel(yq.quarter)[1] == DigitChar(yq.quarter);
    FilenameInjective(p, q);
  }

  /**
   * A record revealed on any day of month `m` of year `y` lands in quarter
   * ceil(m / 3) of year `y`.
   */
  lemma ClusterPathOfRevealMonth(p: Record, y: int, m: int, dom: int)
    requires ValidClassification(p.language, p.category)
    requires 1 <= m <= 12
    requires 0 <= dom < DaysBeforeMonth(y, m + 1) - DaysBeforeMonth(y, m)
    requires p.revealDate / MsPerDay == YearOffset(1970, y) + DaysBeforeMonth(y, m) + dom
    ensures GetQuarter(p.revealDate) == YearQuarter(y, QuarterOfMonth(m))
    ensures ClusterPath(p) == Ok(ClusterDir(p.language, p.category, YearQuarter(y, QuarterOfMonth(m))))
  {
    CivilOfDayRoundTrip(y, m, dom);
  }

  /**
   * A crypto prediction in Italian revealed on any day of February 2026 (day
   * `dom` + 1 of the month) lives under `it/crypto/2026/Q1/`.
   */
  lemma ItalianCryptoFebruary2026(p: Record, dom: int)
    requires p.language == "it" && p.category == "crypto"
    requires 0 <= dom < 28
    requires p.revealDate / MsPerDay == YearOffset(1970, 2026) + DaysBeforeMonth(2026, 2) + dom
    ensures ClusterPath(p) == Ok("data/predictions/it/crypto/2026/Q1/")
  {
    assert ValidClassification("it", "crypto");
    assert DaysBeforeMonth(2026, 3) - DaysBeforeMonth(2026, 2) == 28;
    ClusterPathOfRevealMonth(p, 2026, 2, dom);
    ItalianCryptoDir();
  }

  lemma ItalianCryptoDir()
    ensures ClusterDir("it", "crypto", YearQuarter(2026, QuarterOfMonth(2))) == "data/predictions/it/crypto/2026/Q1/"
  {
    assert QuarterOfMonth(2) == 1;
    Render2026();
    var segs := ["it", "crypto", "2026", "Q1"];
    assert ClusterSegments("it", "crypto", YearQuarter(2026, 1)) == segs;
    ItalianCryptoSegments();
    assert BasePath + "it/crypto/2026/Q1/" == "data/predictions/it/crypto/2026/Q1/";
  }

  lemma ItalianCryptoSegments()
    ensures DirOf(["it", "crypto", "2026", "Q1"]) == "it/crypto/2026/Q1/"
  {
    var segs := ["it", "crypto", "2026", "Q1"];
    assert DirOf(segs[3..]) == "Q1/";
    assert DirOf(segs[2..]) == "2026/Q1/";
    assert DirOf(segs[1..]) == "crypto/2026/Q1/";
  }

  lemma Render2026()
    ensures IntToString(2026) == "2026"
    ensures QuarterLabel(1) == "Q1"
  {
    assert NatToString(2) == "2";
    assert NatToString(20) == "20";
    assert NatToString(202) == "202";
    assert NatToString(2026) == "2026";
  }
}
