/** The query engine behind `GET /genes`: a selector over the validated
    filters, the annotated and unannotated queries, and the endpoint that
    routes each filter to one of them. */
module Query {
  import opened Records
  import opened Seqs
  import opened Validation

  /** The status that routes a filter to the unannotated query. */
  const Unannotated: string := "UNANNOTATED"

  /** A strategy applied to a list of filters. */
  datatype Selector = Selector(strategy: Strategy, filters: seq<Filter>) {
    /** Union: some filter satisfies `pred`; intersection: every filter does. */
    predicate Holds(pred: Filter -> bool)
      ensures strategy == Union ==>
        (Holds(pred) <==> exists i :: 0 <= i < |filters| && pred(filters[i]))
      ensures strategy == Intersection ==>
        (Holds(pred) <==> forall i :: 0 <= i < |filters| ==> pred(filters[i]))
    {
      match strategy
      case Union => SomeOf(filters, pred)
      case Intersection => EveryOf(filters, pred)
    }
  }

  /** An annotation matches a filter when both its Aspect and its status equal the filter's. */
  predicate MatchesStatus(a: Annotation, f: Filter)
  {
    a.Aspect == f.aspect && a.AnnotationStatus == f.annotationStatus
  }

  predicate SelectedAnnotated(sel: Selector, a: Annotation)
  {
    sel.Holds((f: Filter) => MatchesStatus(a, f))
  }

  /** The unannotated query compares the Aspect only. */
  predicate SelectedByAspect(sel: Selector, a: Annotation)
  {
    sel.Holds((f: Filter) => a.Aspect == f.aspect)
  }

  predicate NoDuplicateIds(gs: seq<Gene>)
  {
    forall i, j :: 0 <= i < j < |gs| ==> gs[i].GeneID != gs[j].GeneID
  }

  /** `n` is one of the gene names an annotation carries. */
  predicate NamesGene(a: Annotation, n: string)
  {
    n == a.UniqueGeneName || n in a.AlternativeGeneName
  }

  /** Each annotation's UniqueGeneName followed by its alternative names, all concatenated. */
  function GeneNames(anns: seq<Annotation>): (names: seq<string>)
    ensures forall n :: n in names <==> exists a :: a in anns && NamesGene(a, n)
  {
    if anns == [] then []
    else
      var names := [anns[0].UniqueGeneName] + anns[0].AlternativeGeneName + GeneNames(anns[1..]);
      assert forall a :: a in anns ==> a == anns[0] || a in anns[1..];
      assert forall n :: n in names <==> NamesGene(anns[0], n) || n in GeneNames(anns[1..]);
      names
  }

  /** Every alternative name of every annotation, concatenated. */
  function AltNames(anns: seq<Annotation>): (names: seq<string>)
    ensures forall n :: n in names <==> exists a :: a in anns && n in a.AlternativeGeneName
  {
    if anns == [] then []
    else anns[0].AlternativeGeneName + AltNames(anns[1..])
  }

  /** `names.map(name => geneMap[name]).filter(gene => !!gene)`: the indexed
      genes of the names, in order, names without an entry dropped. */
  function Lookup(names: seq<string>, m: GeneMap): (r: seq<Gene>)
    ensures forall g :: g in r <==> exists n :: n in names && n in m && m[n] == g
    ensures Keyed(m) ==> forall g :: g in r ==> g.GeneID in names
    ensures Keyed(m) && NoDuplicates(names) ==> NoDuplicateIds(r)
  {
    if names == [] then []
    else
      var rest := Lookup(names[1..], m);
      if names[0] in m then
        var r := [m[names[0]]] + rest;
        assert Keyed(m) && NoDuplicates(names) ==> NoDuplicateIds(r) by {
          if Keyed(m) && NoDuplicates(names) {
            forall j | 0 < j < |r| ensures r[0].GeneID != r[j].GeneID {
              assert r[j] == rest[j - 1];
              assert r[j] in rest;
              var k :| 0 <= k < |names[1..]| && names[1..][k] == r[j].GeneID;
              assert names[k + 1] == r[j].GeneID;
            }
          }
        }
        r
      else rest
  }

  /** The annotations the selector picks by Aspect and status, in order,
      and the indexed genes named by them, each name looked up once. */
  function QueryAnnotated(anns: seq<Annotation>, m: GeneMap, sel: Selector): (r: (seq<Gene>, seq<Annotation>))
    ensures forall a :: a in r.1 <==> a in anns && SelectedAnnotated(sel, a)
    ensures forall g :: g in r.0 <==> exists a, n :: a in r.1 && NamesGene(a, n) && n in m && m[n] == g
    ensures Keyed(m) ==> NoDuplicateIds(r.0)
  {
    var queried := Keep(anns, a => SelectedAnnotated(sel, a));
    var names := Distinct(GeneNames(queried));
    (Lookup(names, m), queried)
  }

  /** The records of `genes`, in order, whose GeneID is not an alternative
      name of any annotation the selector picks by Aspect. */
  function QueryUnannotated(anns: seq<Annotation>, genes: seq<Gene>, sel: Selector): (r: seq<Gene>)
    ensures forall g :: g in r <==> (g in genes &&
                                     forall a :: a in anns && SelectedByAspect(sel, a) ==> g.GeneID !in a.AlternativeGeneName)
  {
    var queried := Keep(anns, a => SelectedByAspect(sel, a));
    var annotatedNames := set n | n in AltNames(queried);
    Keep(genes, (g: Gene) => g.GeneID !in annotatedNames)
  }

  /** The body of a `GET /genes` response. */
  datatype GenesResponse = GenesResponse(
    annotatedGenes: seq<Gene>,
    annotations: seq<Annotation>,
    unannotatedGenes: seq<Gene>)

  /** An absent `filter` parameter is an empty list. */
  function FilterStrings(maybeFilters: Option<seq<string>>): (ss: seq<string>)
  {
    match maybeFilters
    case None => []
    case Present(ss) => ss
  }

  /** An absent `strategy` parameter defaults to "union". */
  function StrategyString(maybeStrategy: Option<string>): (s: string)
    ensures maybeStrategy == None ==> s == "union" && ValidateStrategy(s) == Ok(Union)
    ensures maybeStrategy.Present? ==> s == maybeStrategy.value
  {
    match maybeStrategy
    case None => "union"
    case Present(s) => s
  }

  /** The filters that are not UNANNOTATED, in order. */
  function AnnotatedPart(fs: seq<Filter>): (part: seq<Filter>)
    ensures forall f :: f in part <==> f in fs && f.annotationStatus != Unannotated
  {
    Keep(fs, (f: Filter) => f.annotationStatus != Unannotated)
  }

  /** The UNANNOTATED filters, in order. */
  function UnannotatedPart(fs: seq<Filter>): (part: seq<Filter>)
    ensures forall f :: f in part <==> f in fs && f.annotationStatus == Unannotated
  {
    Keep(fs, (f: Filter) => f.annotationStatus == Unannotated)
  }

  /** `GET /genes`: validates every filter, then the strategy, splits the
      filters by status and runs each query only on a non-empty part. */
  function Genes(anns: seq<Annotation>, genes: seq<Gene>, m: GeneMap,
                 maybeFilters: Option<seq<string>>, maybeStrategy: Option<string>): (r: Result<GenesResponse>)
    ensures var vf := ValidateFilters(FilterStrings(maybeFilters));
      && (vf.Err? ==> r == Err(vf.error))
      && (vf.Ok? && ValidateStrategy(StrategyString(maybeStrategy)).Err? ==> r == Err(InvalidStrategy))
      && (r.Ok? <==> vf.Ok? && ValidateStrategy(StrategyString(maybeStrategy)).Ok?)
    ensures r.Ok? && AnnotatedPart(ValidateFilters(FilterStrings(maybeFilters)).value) == [] ==>
      r.value.annotatedGenes == [] && r.value.annotations == []
    ensures r.Ok? && UnannotatedPart(ValidateFilters(FilterStrings(maybeFilters)).value) == [] ==>
      r.value.unannotatedGenes == []
  {
    match ValidateFilters(FilterStrings(maybeFilters))
    case Err(e) => Err(e)
    case Ok(all) =>
      match ValidateStrategy(StrategyString(maybeStrategy))
      case Err(e) => Err(e)
      case Ok(st) =>
        var found := AnswerAnnotated(anns, m, st, all);
        Ok(GenesResponse(found.0, found.1, AnswerUnannotated(anns, genes, st, all)))
  }

  /** The annotated query over the filters that are not UNANNOTATED, or two
      empty lists when there are none. */
  function AnswerAnnotated(anns: seq<Annotation>, m: GeneMap, st: Strategy, fs: seq<Filter>): (r: (seq<Gene>, seq<Annotation>))
    ensures AnnotatedPart(fs) == [] ==> r == ([], [])
    ensures forall a :: a in r.1 <==>
      AnnotatedPart(fs) != [] && a in anns && SelectedAnnotated(Selector(st, AnnotatedPart(fs)), a)
    ensures forall g :: g in r.0 <==> exists a, n :: a in r.1 && NamesGene(a, n) && n in m && m[n] == g
  {
    var annotated := AnnotatedPart(fs);
    if |annotated| > 0 then QueryAnnotated(anns, m, Selector(st, annotated)) else ([], [])
  }

  /** The unannotated query over the UNANNOTATED filters, or an empty list
      when there are none. */
  function AnswerUnannotated(anns: seq<Annotation>, genes: seq<Gene>, st: Strategy, fs: seq<Filter>): (r: seq<Gene>)
    ensures UnannotatedPart(fs) == [] ==> r == []
    ensures forall g :: g in r <==>
      (UnannotatedPart(fs) != [] && g in genes &&
       forall a :: a in anns && SelectedByAspect(Selector(st, UnannotatedPart(fs)), a) ==>
                   g.GeneID !in a.AlternativeGeneName)
  {
    var unannotated := UnannotatedPart(fs);
    if |unannotated| > 0 then QueryUnannotated(anns, genes, Selector(st, unannotated)) else []
  }
}
