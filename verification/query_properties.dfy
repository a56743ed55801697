/** Properties of the `GET /genes` query engine that relate several calls,
    or the endpoint to the filters it was given. */
module QueryProperties {
  import opened Records
  import opened Seqs
  import opened Validation
  import opened GeneIndex
  import opened Query

  /** For a non-empty filter list, intersection returns the union's
      annotations filtered once more (so a subsequence of them, copy for
      copy), and only genes the union also returns. */
  lemma UnionContainsIntersection(anns: seq<Annotation>, m: GeneMap, fs: seq<Filter>)
    requires |fs| > 0
    ensures var i := QueryAnnotated(anns, m, Selector(Intersection, fs));
            var u := QueryAnnotated(anns, m, Selector(Union, fs));
            && i.1 == Keep(u.1, a => SelectedAnnotated(Selector(Intersection, fs), a))
            && multiset(i.1) <= multiset(u.1)
            && forall g :: g in i.0 ==> g in u.0
  {
    var pI := (a: Annotation) => SelectedAnnotated(Selector(Intersection, fs), a);
    var pU := (a: Annotation) => SelectedAnnotated(Selector(Union, fs), a);
    forall a | a in anns && pI(a) ensures pU(a) {
      assert MatchesStatus(a, fs[0]);
    }
    KeepNarrow(anns, pI, pU);
    var u := Keep(anns, pU);
    forall x ensures multiset(Keep(u, pI))[x] <= multiset(u)[x] {
      KeepMultiset(u, pI, x);
    }
  }

  /** The annotated query keeps the order of the annotation list: querying a
      concatenation concatenates the results, and each selected annotation
      is returned as many times as it occurs. */
  lemma AnnotatedKeepsOrder(anns1: seq<Annotation>, anns2: seq<Annotation>, m: GeneMap, sel: Selector, a: Annotation)
    ensures QueryAnnotated(anns1 + anns2, m, sel).1 ==
            QueryAnnotated(anns1, m, sel).1 + QueryAnnotated(anns2, m, sel).1
    ensures multiset(QueryAnnotated(anns1, m, sel).1)[a] ==
            if SelectedAnnotated(sel, a) then multiset(anns1)[a] else 0
  {
    var p := (x: Annotation) => SelectedAnnotated(sel, x);
    KeepAppend(anns1, anns2, p);
    KeepMultiset(anns1, p, a);
  }

  /** The unannotated query keeps the order of the gene list, and returns
      each passing gene-list row exactly as often as it occurs. */
  lemma UnannotatedKeepsOrder(anns: seq<Annotation>, genes1: seq<Gene>, genes2: seq<Gene>, sel: Selector, g: Gene)
    ensures QueryUnannotated(anns, genes1 + genes2, sel) ==
            QueryUnannotated(anns, genes1, sel) + QueryUnannotated(anns, genes2, sel)
    ensures multiset(QueryUnannotated(anns, genes1, sel))[g] ==
            if (forall a :: a in anns && SelectedByAspect(sel, a) ==> g.GeneID !in a.AlternativeGeneName)
            then multiset(genes1)[g] else 0
  {
    var queried := Keep(anns, a => SelectedByAspect(sel, a));
    var annotatedNames := set n | n in AltNames(queried);
    KeepAppend(genes1, genes2, (x: Gene) => x.GeneID !in annotatedNames);
    KeepMultiset(genes1, (x: Gene) => x.GeneID !in annotatedNames, g);
  }

  /** When the selector picks no annotation, the unannotated query returns
      the gene list itself, pseudogenes and a header row included. */
  lemma UnannotatedWithoutSelectedAnnotations(anns: seq<Annotation>, genes: seq<Gene>, sel: Selector)
    requires forall a :: a in anns ==> !SelectedByAspect(sel, a)
    ensures QueryUnannotated(anns, genes, sel) == genes
  {
    var queried := Keep(anns, a => SelectedByAspect(sel, a));
    KeepNone(anns, a => SelectedByAspect(sel, a));
    var annotatedNames := set n | n in AltNames(queried);
    assert annotatedNames == {};
    KeepAll(genes, (g: Gene) => g.GeneID !in annotatedNames);
  }

  /** Every validated filter lands in exactly one of the two parts. */
  lemma FilterPartition(fs: seq<Filter>)
    ensures multiset(AnnotatedPart(fs)) + multiset(UnannotatedPart(fs)) == multiset(fs)
    ensures forall f :: f in AnnotatedPart(fs) <==> f in fs && f.annotationStatus != Unannotated
    ensures forall f :: f in UnannotatedPart(fs) <==> f in fs && f.annotationStatus == Unannotated
  {
    forall f ensures (multiset(AnnotatedPart(fs)) + multiset(UnannotatedPart(fs)))[f] == multiset(fs)[f] {
      KeepMultiset(fs, (x: Filter) => x.annotationStatus != Unannotated, f);
      KeepMultiset(fs, (x: Filter) => x.annotationStatus == Unannotated, f);
    }
  }

  /** A request without filters, absent or empty, returns three empty lists
      whenever its strategy is valid. */
  lemma NoFiltersGiveEmptyLists(anns: seq<Annotation>, genes: seq<Gene>, m: GeneMap,
                                maybeFilters: Option<seq<string>>, maybeStrategy: Option<string>)
    requires maybeFilters == None || maybeFilters == Present([])
    ensures Genes(anns, genes, m, maybeFilters, maybeStrategy) ==
      if ValidateStrategy(StrategyString(maybeStrategy)).Ok? then Ok(GenesResponse([], [], []))
      else Err(InvalidStrategy)
  {
  }

  /** A request without a `filter` parameter is answered exactly as one
      whose filter list is empty. */
  lemma AbsentFiltersAreEmpty(anns: seq<Annotation>, genes: seq<Gene>, m: GeneMap, maybeStrategy: Option<string>)
    ensures Genes(anns, genes, m, None, maybeStrategy) == Genes(anns, genes, m, Present([]), maybeStrategy)
  {
  }

  /** There is an annotated part exactly when some filter is not UNANNOTATED. */
  lemma AnnotatedPartNonEmpty(fs: seq<Filter>)
    ensures |AnnotatedPart(fs)| > 0 <==> exists i :: 0 <= i < |fs| && fs[i].annotationStatus != Unannotated
  {
    var ap := AnnotatedPart(fs);
    if exists i :: 0 <= i < |fs| && fs[i].annotationStatus != Unannotated {
      var i :| 0 <= i < |fs| && fs[i].annotationStatus != Unannotated;
      assert fs[i] in ap;
    }
    if |ap| > 0 {
      assert ap[0] in ap;
      var i :| 0 <= i < |fs| && fs[i] == ap[0];
    }
  }

  /** Under union, the annotated part selects an annotation exactly when
      some filter that is not UNANNOTATED matches its Aspect and status. */
  lemma UnionOfAnnotatedPart(fs: seq<Filter>, a: Annotation)
    ensures SelectedAnnotated(Selector(Union, AnnotatedPart(fs)), a) <==>
            exists i :: 0 <= i < |fs| && fs[i].annotationStatus != Unannotated && MatchesStatus(a, fs[i])
  {
  }

  /** Under intersection, the annotated part selects an annotation exactly
      when every filter that is not UNANNOTATED matches its Aspect and status. */
  lemma IntersectionOfAnnotatedPart(fs: seq<Filter>, a: Annotation)
    ensures SelectedAnnotated(Selector(Intersection, AnnotatedPart(fs)), a) <==>
            forall i :: 0 <= i < |fs| && fs[i].annotationStatus != Unannotated ==> MatchesStatus(a, fs[i])
  {
    var ap := AnnotatedPart(fs);
    if forall i :: 0 <= i < |fs| && fs[i].annotationStatus != Unannotated ==> MatchesStatus(a, fs[i]) {
      forall j | 0 <= j < |ap| ensures MatchesStatus(a, ap[j]) {
        assert ap[j] in ap;
        var i :| 0 <= i < |fs| && fs[i] == ap[j];
      }
    }
    if SelectedAnnotated(Selector(Intersection, ap), a) {
      forall i | 0 <= i < |fs| && fs[i].annotationStatus != Unannotated ensures MatchesStatus(a, fs[i]) {
        assert fs[i] in ap;
        var j :| 0 <= j < |ap| && ap[j] == fs[i];
      }
    }
  }

  /** Under union (the default), an annotation is returned exactly when some
      filter that is not UNANNOTATED matches its Aspect and status; the
      UNANNOTATED filters play no part. */
  lemma UnionAnnotations(anns: seq<Annotation>, genes: seq<Gene>, m: GeneMap,
                         raw: seq<string>, maybeStrategy: Option<string>)
    requires maybeStrategy == None || maybeStrategy == Present("union")
    requires ValidateFilters(raw).Ok?
    ensures var fs := ValidateFilters(raw).value;
            var r := Genes(anns, genes, m, Present(raw), maybeStrategy);
            r.Ok? && forall a :: a in r.value.annotations <==>
              a in anns && exists i :: 0 <= i < |fs| && fs[i].annotationStatus != Unannotated && MatchesStatus(a, fs[i])
  {
  }

  /** Under intersection, an annotation is returned exactly when some filter
      is not UNANNOTATED and every such filter matches it; the UNANNOTATED
      filters play no part. */
  lemma IntersectionAnnotations(anns: seq<Annotation>, genes: seq<Gene>, m: GeneMap, raw: seq<string>)
    requires ValidateFilters(raw).Ok?
    ensures var fs := ValidateFilters(raw).value;
            var r := Genes(anns, genes, m, Present(raw), Present("intersection"));
            r.Ok? && forall a :: a in r.value.annotations <==>
              && a in anns
              && (exists i :: 0 <= i < |fs| && fs[i].annotationStatus != Unannotated)
              && (forall i :: 0 <= i < |fs| && fs[i].annotationStatus != Unannotated ==> MatchesStatus(a, fs[i]))
  {
    assert FilterStrings(Present(raw)) == raw;
    var fs := ValidateFilters(raw).value;
    var found := AnswerAnnotated(anns, m, Intersection, fs);
    assert Genes(anns, genes, m, Present(raw), Present("intersection")) ==
           Ok(GenesResponse(found.0, found.1, AnswerUnannotated(anns, genes, Intersection, fs)));
    var ap := AnnotatedPart(fs);
    AnnotatedPartNonEmpty(fs);
    if |ap| > 0 {
      assert found == QueryAnnotated(anns, m, Selector(Intersection, ap));
      forall a ensures a in found.1 <==>
                && a in anns
                && (forall i :: 0 <= i < |fs| && fs[i].annotationStatus != Unannotated ==> MatchesStatus(a, fs[i]))
      {
        IntersectionOfAnnotatedPart(fs, a);
      }
    } else {
      assert found.1 == [];
    }
  }

  /** There is an unannotated part exactly when some filter is UNANNOTATED. */
  lemma UnannotatedPartNonEmpty(fs: seq<Filter>)
    ensures |UnannotatedPart(fs)| > 0 <==> exists i :: 0 <= i < |fs| && fs[i].annotationStatus == Unannotated
  {
    var up := UnannotatedPart(fs);
    if exists i :: 0 <= i < |fs| && fs[i].annotationStatus == Unannotated {
      var i :| 0 <= i < |fs| && fs[i].annotationStatus == Unannotated;
      assert fs[i] in up;
    }
    if |up| > 0 {
      assert up[0] in up;
      var i :| 0 <= i < |fs| && fs[i] == up[0];
    }
  }

  /** The response's annotated genes are exactly the indexed genes named by
      the response's annotations, whatever the strategy. */
  lemma ResponseAnnotatedGenes(anns: seq<Annotation>, genes: seq<Gene>, m: GeneMap,
                               raw: seq<string>, maybeStrategy: Option<string>)
    requires ValidateFilters(raw).Ok? && ValidateStrategy(StrategyString(maybeStrategy)).Ok?
    ensures var r := Genes(anns, genes, m, Present(raw), maybeStrategy);
            r.Ok? && forall g :: g in r.value.annotatedGenes <==>
              exists a, n :: a in r.value.annotations && NamesGene(a, n) && n in m && m[n] == g
  {
  }

  /** The response's unannotated genes: there is an UNANNOTATED filter, and
      they are the records of the gene list whose GeneID is no alternative
      name of an annotation that the UNANNOTATED filters pick by Aspect. The
      other filters play no part. */
  lemma ResponseUnannotatedGenes(anns: seq<Annotation>, genes: seq<Gene>, m: GeneMap,
                                 raw: seq<string>, maybeStrategy: Option<string>)
    requires ValidateFilters(raw).Ok? && ValidateStrategy(StrategyString(maybeStrategy)).Ok?
    ensures var fs := ValidateFilters(raw).value;
            var st := ValidateStrategy(StrategyString(maybeStrategy)).value;
            var r := Genes(anns, genes, m, Present(raw), maybeStrategy);
            r.Ok? && forall g :: g in r.value.unannotatedGenes <==>
              && (exists i :: 0 <= i < |fs| && fs[i].annotationStatus == Unannotated)
              && g in genes
              && forall a :: a in anns && SelectedByAspect(Selector(st, UnannotatedPart(fs)), a) ==>
                   g.GeneID !in a.AlternativeGeneName
  {
    var fs := ValidateFilters(raw).value;
    var st := ValidateStrategy(StrategyString(maybeStrategy)).value;
    var found := AnswerAnnotated(anns, m, st, fs);
    assert Genes(anns, genes, m, Present(raw), maybeStrategy) ==
           Ok(GenesResponse(found.0, found.1, AnswerUnannotated(anns, genes, st, fs)));
    UnannotatedPartNonEmpty(fs);
  }

  /** Some UNANNOTATED filter names the aspect `aspect`. */
  predicate UnannotatedAspect(fs: seq<Filter>, aspect: string)
  {
    exists i :: 0 <= i < |fs| && fs[i].annotationStatus == Unannotated && fs[i].aspect == aspect
  }

  /** Under union, the UNANNOTATED filters pick an annotation exactly when
      one of them names its Aspect. */
  lemma UnionOfUnannotatedPart(fs: seq<Filter>, a: Annotation)
    ensures SelectedByAspect(Selector(Union, UnannotatedPart(fs)), a) <==> UnannotatedAspect(fs, a.Aspect)
  {
  }

  /** Under union (the default), the unannotated genes are the records of
      the gene list whose GeneID is no alternative name of any annotation
      whose Aspect some UNANNOTATED filter names, and there are none without
      an UNANNOTATED filter. */
  lemma UnionUnannotatedGenes(anns: seq<Annotation>, genes: seq<Gene>, m: GeneMap,
                              raw: seq<string>, maybeStrategy: Option<string>)
    requires maybeStrategy == None || maybeStrategy == Present("union")
    requires ValidateFilters(raw).Ok?
    ensures var fs := ValidateFilters(raw).value;
            var r := Genes(anns, genes, m, Present(raw), maybeStrategy);
            r.Ok? && forall g :: g in r.value.unannotatedGenes <==>
              && (exists i :: 0 <= i < |fs| && fs[i].annotationStatus == Unannotated)
              && g in genes
              && forall a :: a in anns && UnannotatedAspect(fs, a.Aspect) ==> g.GeneID !in a.AlternativeGeneName
  {
    var fs := ValidateFilters(raw).value;
    var up := UnannotatedPart(fs);
    ResponseUnannotatedGenes(anns, genes, m, raw, maybeStrategy);
    forall a | a in anns
      ensures SelectedByAspect(Selector(Union, up), a) <==> UnannotatedAspect(fs, a.Aspect)
    {
      UnionOfUnannotatedPart(fs, a);
    }
  }

  /** Against the index built from the same gene list, the annotated genes of
      a response never repeat a GeneID, and none of them is the header key. */
  lemma AnnotatedGenesDistinct(anns: seq<Annotation>, genes: seq<Gene>,
                               maybeFilters: Option<seq<string>>, maybeStrategy: Option<string>)
    ensures var r := Genes(anns, genes, GeneMapOf(genes), maybeFilters, maybeStrategy);
            r.Ok? ==> NoDuplicateIds(r.value.annotatedGenes) &&
                      forall g :: g in r.value.annotatedGenes ==> g.GeneID != HeaderKey
  {
  }

  /** The filter string `P,UNANNOTATED` validates to the one filter it spells. */
  lemma UnannotatedFilterString()
    ensures ValidateFilters(["P,UNANNOTATED"]) == Ok([Filter("P", Unannotated)])
  {
    var s := "P" + [Separator] + Unannotated;
    ValidateFilterParts("P", Unannotated);
    assert ValidateFilter(s) == Ok(Filter("P", Unannotated));
    var r := ValidateFilters([s]);
    assert r.Ok? && |r.value| == 1 && ValidateFilter([s][0]) == Ok(r.value[0]);
    assert r.value == [Filter("P", Unannotated)];
    assert s == "P,UNANNOTATED";
  }

  /** The unannotated genes come from the gene list, not from the index: a
      header row and a pseudogene are returned although the index drops the one. */
  lemma UnannotatedReadsGeneList()
    ensures var genes := [Gene("name", "GeneProductType"), Gene("AT1G01000", "pseudogene")];
            && Genes([], genes, GeneMapOf(genes), Present(["P,UNANNOTATED"]), None) ==
               Ok(GenesResponse([], [], genes))
            && "name" !in GeneMapOf(genes)
  {
    var genes := [Gene("name", "GeneProductType"), Gene("AT1G01000", "pseudogene")];
    var fs := [Filter("P", Unannotated)];
    UnannotatedFilterString();
    assert Keep(fs[1..], (f: Filter) => f.annotationStatus != Unannotated) == [];
    assert AnnotatedPart(fs) == [];
    assert Keep(fs[1..], (f: Filter) => f.annotationStatus == Unannotated) == [];
    assert UnannotatedPart(fs) == fs;
    UnannotatedWithoutSelectedAnnotations([], genes, Selector(Union, fs));
    assert AnswerUnannotated([], genes, Union, fs) == genes;
    assert Genes([], genes, GeneMapOf(genes), Present(["P,UNANNOTATED"]), None) ==
           Ok(GenesResponse([], [], AnswerUnannotated([], genes, Union, fs)));
  }

  /** `filter=Z,EXP` is refused for its aspect, and `strategy=xor` for its strategy. */
  lemma RejectedRequests(anns: seq<Annotation>, genes: seq<Gene>, m: GeneMap)
    ensures Genes(anns, genes, m, Present(["Z,EXP"]), None) == Err(InvalidAspect)
    ensures Genes(anns, genes, m, Present(["P,EXP"]), Present("xor")) == Err(InvalidStrategy)
    ensures Genes(anns, genes, m, Present(["Z,EXP"]), Present("xor")) == Err(InvalidAspect)
  {
    ValidateFilterParts("Z", "EXP");
    assert "Z,EXP" == "Z" + [Separator] + "EXP";
    ValidateFilterParts("P", "EXP");
    assert "P,EXP" == "P" + [Separator] + "EXP";
  }
}
