/** The records the query engine works over, and the outcome of validating
    client input. Field names follow the ingested record layout. */
module Records {

  /** One row of the gene-type file. */
  datatype Gene = Gene(GeneID: string, GeneProductType: string)

  /** One row of the annotation file. Aspect and status are kept as the raw
      strings read from the file: the counting report has a slot for any
      status outside the four known ones. */
  datatype Annotation = Annotation(
    UniqueGeneName: string,
    AlternativeGeneName: seq<string>,
    Aspect: string,
    AnnotationStatus: string)

  /** A validated `ASPECT,STATUS` query filter. */
  datatype Filter = Filter(aspect: string, annotationStatus: string)

  /** How several filters are combined: at least one (union) or all (intersection). */
  datatype Strategy = Union | Intersection

  /** One kind per client-input error message (each is a 400 response). */
  datatype ValidationError =
    | MalformedFilter          // not exactly two comma-separated parts
    | InvalidAspect            // aspect not exactly P, C or F
    | InvalidAnnotationStatus  // status not EXP, OTHER, UNKNOWN or UNANNOTATED
    | InvalidStrategy          // strategy not exactly union or intersection

  datatype Result<T> = Ok(value: T) | Err(error: ValidationError)

  /** An optional query parameter: absent, or the string(s) supplied. */
  datatype Option<T> = None | Present(value: T)

  /** The gene index: GeneID to gene record. */
  type GeneMap = map<string, Gene>

  /** Every entry of the index is filed under its own GeneID. */
  ghost predicate Keyed(m: GeneMap)
  {
    forall k :: k in m ==> m[k].GeneID == k
  }
}
