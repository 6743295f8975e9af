/** `AcceptsMimeTypeSetterFilter`: the `format` query parameter, or else the
    extension of the request path, chooses the `Accept` header; an
    extension that was used is cut off the request path. */
module MimeFilter {
  import opened Wrappers
  import opened Text

  const TextCsv: string := "text/csv"
  const ApplicationExcel: string := "application/vnd.ms-excel"
  const ApplicationJson: string := "application/json"
  const ApplicationXml: string := "application/xml"

  /** The format table the constructor fills (lines 33-39). */
  const DefaultFormats: map<string, string> :=
    map["csv" := TextCsv, "xls" := ApplicationExcel, "json" := ApplicationJson, "xml" := ApplicationXml]

  /** `getExtension(path)` (lines 49-65): the text after the last dot, when
      that dot is not the first character and the text holds no path
      separator; a one-character extension (dot second to last) gives the
      empty text. */
  function GetExtension(path: string): (r: Option<string>)
    ensures LastIndexOf(path, '.') <= 0 ==> r.None?
    ensures LastIndexOf(path, '.') > 0 && LastIndexOf(path, '.') == |path| - 2 ==> r == Some("")
    ensures var d := LastIndexOf(path, '.');
            d > 0 && d != |path| - 2 ==>
              && (r.Some? <==> '/' !in path[d + 1..] && '\\' !in path[d + 1..])
              && (r.Some? ==> r.value == path[d + 1..])
    ensures r.Some? ==> '.' !in r.value && '/' !in r.value && '\\' !in r.value
    ensures r.Some? ==> |r.value| != 1
  {
    var d := LastIndexOf(path, '.');
    if d > 0 then
      if d == |path| - 2 then Some("")
      else
        var ext := path[d + 1..];
        if '/' in ext || '\\' in ext then None else Some(ext)
    else None
  }

  /** What `filter` does to the request: the `Accept` value it sets and the
      path it replaces the request path with (`None`: left unchanged). */
  datatype Decision = Decision(accept: Option<string>, newPath: Option<string>)

  /** `filter(request)` (lines 68-91). `param` is the first `format` query
      value, `path` the path relative to the application (what the extension
      is taken from) and `requestPath` the path of the request URI (what is
      cut). Cutting more characters than `requestPath` has throws. */
  function Decide(formats: map<string, string>, param: Option<string>, path: string, requestPath: string): (r: Result<Decision>)
    ensures param.Some? ==> r == Ok(Decision(if param.value in formats then Some(formats[param.value]) else None, None))
    ensures param.None? && (GetExtension(path).None? || GetExtension(path).value !in formats) ==> r == Ok(Decision(None, None))
    ensures param.None? && GetExtension(path).Some? && GetExtension(path).value in formats ==>
              var ext := GetExtension(path).value;
              && (r.Ok? <==> |requestPath| >= |ext| + 1)
              && (r.Err? ==> r.error == IndexOutOfBounds)
              && (r.Ok? ==> && r.value.accept == Some(formats[ext])
                            && r.value.newPath.Some?
                            && |r.value.newPath.value| + |ext| + 1 == |requestPath|
                            && requestPath[..|r.value.newPath.value|] == r.value.newPath.value)
  {
    var fromExtension := param.None?;
    var requested := if fromExtension then GetExtension(path) else param;
    match requested
    case None => Ok(Decision(None, None))
    case Some(f) =>
      if f !in formats then Ok(Decision(None, None))
      else if !fromExtension then Ok(Decision(Some(formats[f]), None))
      else
        var keep := |requestPath| - |f| - 1;
        if keep < 0 then Err(IndexOutOfBounds)
        else Ok(Decision(Some(formats[f]), Some(requestPath[..keep])))
  }

  /** The last dot of `base + "." + ext` is the one before `ext`. */
  lemma LastDotBeforeExtension(base: string, ext: string)
    requires '.' !in ext
    ensures LastIndexOf(base + "." + ext, '.') == |base|
  {
    var s := base + "." + ext;
    var d := LastIndexOf(s, '.');
    assert s[|base|] == '.';
    assert s[|base| + 1..] == ext;
  }

  /** An extension of two characters or more, free of dots and path
      separators, after a non-empty base is found again by `getExtension`. */
  lemma ExtensionOfAppended(base: string, ext: string)
    requires |base| > 0 && |ext| >= 2
    requires '.' !in ext && '/' !in ext && '\\' !in ext
    ensures GetExtension(base + "." + ext) == Some(ext)
  {
    LastDotBeforeExtension(base, ext);
    assert (base + "." + ext)[|base| + 1..] == ext;
  }

  /** Requesting `base.ext` for a known `ext` sets its MIME type and sends
      the request on as `base`: exactly the extension and its dot are cut. */
  lemma StripExtension(formats: map<string, string>, base: string, ext: string)
    requires |base| > 0 && |ext| >= 2
    requires '.' !in ext && '/' !in ext && '\\' !in ext
    requires ext in formats
    ensures Decide(formats, None, base + "." + ext, base + "." + ext) == Ok(Decision(Some(formats[ext]), Some(base)))
  {
    ExtensionOfAppended(base, ext);
    var p := base + "." + ext;
    assert |p| - |ext| - 1 == |base|;
    assert p[..|base|] == base;
  }

  /** The query parameter wins: with `format` present the path plays no part. */
  lemma ParameterTakesPrecedence(formats: map<string, string>, f: string, path1: string, rp1: string, path2: string, rp2: string)
    ensures Decide(formats, Some(f), path1, rp1) == Decide(formats, Some(f), path2, rp2)
    ensures Decide(formats, Some(f), path1, rp1).value.newPath.None?
  {
  }

  /** The default table: `report.csv` asks for `text/csv` and becomes `report`. */
  lemma CsvExtension()
    ensures Decide(DefaultFormats, None, "report.csv", "/api/report.csv") == Ok(Decision(Some(TextCsv), Some("/api/report")))
  {
    ExtensionOfAppended("report", "csv");
    assert "report" + "." + "csv" == "report.csv";
    assert "/api/report.csv"[..11] == "/api/report";
  }

  /** A one-character extension is reported as the empty text, so a table
      with an entry for `""` cuts one character where the extension and its
      dot are two: `a.c` becomes `a.`. */
  lemma OneCharacterExtensionCutsShort()
    ensures GetExtension("a.c") == Some("")
    ensures Decide(map["" := TextCsv], None, "a.c", "a.c") == Ok(Decision(Some(TextCsv), Some("a.")))
  {
    assert LastIndexOf("a.c", '.') == 1 by {
      assert "a.c"[1] == '.';
      assert "a.c"[2..] == "c";
    }
    assert "a.c"[..2] == "a.";
  }
}
