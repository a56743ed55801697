/** Validation of the `filter` and `strategy` query parameters. Every failure
    is a client-input error, returned as an `Err` instead of thrown. */
module Validation {
  import opened Records
  import opened Text

  const Separator: char := ','

  /** A valid aspect is exactly "F", "C" or "P". */
  predicate ValidateAspect(s: string)
    ensures ValidateAspect(s) ==> |s| == 1 && Separator !in s
  {
    s == "F" || s == "C" || s == "P"
  }

  /** A valid status is exactly "EXP", "OTHER", "UNKNOWN" or "UNANNOTATED". */
  predicate ValidateAnnotationStatus(s: string)
    ensures ValidateAnnotationStatus(s) ==> Separator !in s
  {
    s == "EXP" || s == "OTHER" || s == "UNKNOWN" || s == "UNANNOTATED"
  }

  /** A filter whose two fields passed validation. */
  predicate ValidFilter(f: Filter)
  {
    ValidateAspect(f.aspect) && ValidateAnnotationStatus(f.annotationStatus)
  }

  /** The query-string form `ASPECT,STATUS` of a filter. */
  function Render(f: Filter): string
  {
    f.aspect + [Separator] + f.annotationStatus
  }

  /** Parses `ASPECT,STATUS`. A string without exactly one comma is malformed;
      otherwise the aspect is checked before the status. */
  function ValidateFilter(s: string): (r: Result<Filter>)
    ensures r == Err(MalformedFilter) <==> Occurrences(s, Separator) != 1
    ensures r.Ok? ==> ValidFilter(r.value) && Render(r.value) == s
  {
    var parts := Split(s, Separator);
    if |parts| != 2 then Err(MalformedFilter)
    else if !ValidateAspect(parts[0]) then Err(InvalidAspect)
    else if !ValidateAnnotationStatus(parts[1]) then Err(InvalidAnnotationStatus)
    else
      assert Join(parts, Separator) == parts[0] + [Separator] + Join(parts[1..], Separator);
      Ok(Filter(parts[0], parts[1]))
  }

  /** For a string with exactly one comma, the text before it decides the
      aspect error, then the text after it decides the status error, and a
      valid pair comes back as exactly those two parts. */
  lemma ValidateFilterParts(a: string, b: string)
    requires Separator !in a && Separator !in b
    ensures ValidateFilter(a + [Separator] + b) ==
      if !ValidateAspect(a) then Err(InvalidAspect)
      else if !ValidateAnnotationStatus(b) then Err(InvalidAnnotationStatus)
      else Ok(Filter(a, b))
  {
    SplitJoinTwo(a, Separator, b);
  }

  /** Rendering a valid filter and validating it gives the filter back. */
  lemma ValidateRenderRoundTrip(f: Filter)
    requires ValidFilter(f)
    ensures ValidateFilter(Render(f)) == Ok(f)
  {
    ValidateFilterParts(f.aspect, f.annotationStatus);
  }

  /** `filters.map(validateFilter)`: the first invalid filter, in order,
      decides the error; otherwise every filter is validated in place. */
  function ValidateFilters(ss: seq<string>): (r: Result<seq<Filter>>)
    ensures r.Ok? <==> forall i :: 0 <= i < |ss| ==> ValidateFilter(ss[i]).Ok?
    ensures r.Ok? ==> |r.value| == |ss|
    ensures r.Ok? ==> forall i :: 0 <= i < |ss| ==> ValidateFilter(ss[i]) == Ok(r.value[i])
    ensures r.Err? ==> exists i :: 0 <= i < |ss| && ValidateFilter(ss[i]) == Err(r.error) &&
                                   (forall j :: 0 <= j < i ==> ValidateFilter(ss[j]).Ok?)
  {
    if ss == [] then Ok([])
    else
      match ValidateFilter(ss[0])
      case Err(e) => Err(e)
      case Ok(f) =>
        match ValidateFilters(ss[1..])
        case Err(e) =>
          assert forall i :: 1 <= i < |ss| ==> ss[i] == ss[1..][i - 1];
          Err(e)
        case Ok(fs) =>
          assert forall i :: 1 <= i < |ss| ==> ss[i] == ss[1..][i - 1];
          Ok([f] + fs)
  }

  /** The wire name of a strategy. */
  function StrategyName(st: Strategy): string
  {
    match st
    case Union => "union"
    case Intersection => "intersection"
  }

  /** Accepts exactly "union" and "intersection", returning the input unchanged. */
  function ValidateStrategy(s: string): (r: Result<Strategy>)
    ensures r.Ok? <==> s == "union" || s == "intersection"
    ensures r.Ok? ==> StrategyName(r.value) == s
    ensures r.Err? ==> r.error == InvalidStrategy
  {
    if s != "union" && s != "intersection" then Err(InvalidStrategy)
    else if s == "union" then Ok(Union)
    else Ok(Intersection)
  }
}
