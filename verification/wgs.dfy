/** The `GET /wgs_segments` report: per aspect, four counters, one per
    status, of the annotations whose last alternative name is an index key
    or that have no alternative name at all. */
module Wgs {
  import opened Records
  import opened Seqs

  /** What the gene-id helper returns: `undefined` when it scanned no alias,
      `null`, or an alias that is an index key. */
  datatype GeneId = Undefined | Null | Id(id: string)

  /** The helper's loop from the state `acc`: every alias overwrites the
      result, with the alias itself when it is an index key and with null
      otherwise. */
  function Scan(m: GeneMap, aliases: seq<string>, acc: GeneId): (r: GeneId)
    ensures aliases == [] ==> r == acc
    ensures aliases != [] ==> r != Undefined
    ensures aliases != [] && r.Id? ==> r.id in m && r.id in aliases
  {
    if aliases == [] then acc
    else Scan(m, aliases[1..], if aliases[0] in m then Id(aliases[0]) else Null)
  }

  /** Only the last alias decides the scan: it is not a search for the last
      alias that is a key. */
  lemma {:induction false} ScanDecidedByLastAlias(m: GeneMap, aliases: seq<string>, acc: GeneId)
    ensures Scan(m, aliases, acc) ==
      if aliases == [] then acc
      else if aliases[|aliases| - 1] in m then Id(aliases[|aliases| - 1])
      else Null
  {
    if aliases != [] {
      ScanDecidedByLastAlias(m, aliases[1..], if aliases[0] in m then Id(aliases[0]) else Null);
    }
  }

  /** An alias that is a key, followed by one that is not, resolves to null. */
  lemma EarlierKeyIsOverwritten(m: GeneMap, key: string, other: string)
    requires key in m && other !in m
    ensures Scan(m, [key, other], Undefined) == Null
  {
    ScanDecidedByLastAlias(m, [key, other], Undefined);
  }

  /** The gene id of an annotation, computed by the helper's loop. */
  method GetGeneId(m: GeneMap, a: Annotation) returns (r: GeneId)
    ensures r == Scan(m, a.AlternativeGeneName, Undefined)
    ensures a.AlternativeGeneName == [] ==> r == Undefined
    ensures a.AlternativeGeneName != [] ==>
      var last := a.AlternativeGeneName[|a.AlternativeGeneName| - 1];
      r == if last in m then Id(last) else Null
  {
    var aliases := a.AlternativeGeneName;
    r := Undefined;
    assert aliases[0..] == aliases;
    for i := 0 to |aliases|
      invariant Scan(m, aliases[i..], r) == Scan(m, aliases, Undefined)
    {
      assert aliases[i..][1..] == aliases[i + 1..];
      if aliases[i] in m {
        r := Id(aliases[i]);
      } else {
        r := Null;
      }
    }
    ScanDecidedByLastAlias(m, aliases, Undefined);
  }

  /** The annotation passes the `!== null` test: its last alias is an index
      key, or it has no alias at all (`undefined` is not `null`). */
  predicate Counted(m: GeneMap, a: Annotation)
    ensures Counted(m, a) <==>
      a.AlternativeGeneName == [] || a.AlternativeGeneName[|a.AlternativeGeneName| - 1] in m
  {
    ScanDecidedByLastAlias(m, a.AlternativeGeneName, Undefined);
    Scan(m, a.AlternativeGeneName, Undefined) != Null
  }

  /** The names of the four counters of an aspect, in slot order. */
  const SlotNames: seq<string> := ["EXP", "OTHER", "UNKNOWN", "UNANNOTATED"]

  /** The aspects of the report, in key order. */
  const Aspects: seq<string> := ["P", "F", "C"]

  /** The counter a status increments: EXP, OTHER and UNKNOWN their own
      slot, any other status the last one. */
  function SlotOf(status: string): (k: nat)
    ensures k < |SlotNames|
    ensures k < 3 ==> SlotNames[k] == status
    ensures k == 3 <==> status != "EXP" && status != "OTHER" && status != "UNKNOWN"
  {
    if status == "EXP" then 0
    else if status == "UNKNOWN" then 2
    else if status == "OTHER" then 1
    else 3
  }

  predicate InSlot(m: GeneMap, aspect: string, k: nat, a: Annotation)
  {
    Counted(m, a) && a.Aspect == aspect && SlotOf(a.AnnotationStatus) == k
  }

  /** Counter `k` of `aspect`: the number of annotations, not of distinct
      genes, that it counts. */
  function Tally(m: GeneMap, anns: seq<Annotation>, aspect: string, k: nat): nat
  {
    |Keep(anns, a => InSlot(m, aspect, k, a))|
  }

  /** The annotations of an aspect that pass the gene-id test. */
  function CountedOfAspect(m: GeneMap, anns: seq<Annotation>, aspect: string): seq<Annotation>
  {
    Keep(anns, a => Counted(m, a) && a.Aspect == aspect)
  }

  /** One more annotation raises exactly the counter it belongs to, by one. */
  lemma TallySnoc(m: GeneMap, anns: seq<Annotation>, a: Annotation, aspect: string, k: nat)
    ensures Tally(m, anns + [a], aspect, k) ==
            Tally(m, anns, aspect, k) + if InSlot(m, aspect, k, a) then 1 else 0
  {
    KeepAppend(anns, [a], x => InSlot(m, aspect, k, x));
  }

  /** The four counters of an aspect add up to the number of its annotations
      that pass the gene-id test. */
  lemma {:induction false} SlotsSumToAspectCount(m: GeneMap, anns: seq<Annotation>, aspect: string)
    ensures Tally(m, anns, aspect, 0) + Tally(m, anns, aspect, 1) +
            Tally(m, anns, aspect, 2) + Tally(m, anns, aspect, 3) ==
            |CountedOfAspect(m, anns, aspect)|
  {
    if anns != [] {
      SlotsSumToAspectCount(m, anns[1..], aspect);
    }
  }

  /** Counters start at zero and never decrease as the scan goes on. */
  lemma TallyNeverDecreases(m: GeneMap, anns: seq<Annotation>, aspect: string, k: nat, i: nat, j: nat)
    requires i <= j <= |anns|
    ensures Tally(m, anns[..0], aspect, k) == 0
    ensures Tally(m, anns[..i], aspect, k) <= Tally(m, anns[..j], aspect, k)
  {
    assert anns[..j] == anns[..i] + anns[i..j];
    KeepAppend(anns[..i], anns[i..j], a => InSlot(m, aspect, k, a));
  }

  /** An annotation listed twice is counted twice. */
  lemma DuplicatesCountTwice(m: GeneMap, anns: seq<Annotation>, a: Annotation, aspect: string, k: nat)
    requires InSlot(m, aspect, k, a)
    ensures Tally(m, anns + [a, a], aspect, k) == Tally(m, anns, aspect, k) + 2
  {
    TallySnoc(m, anns, a, aspect, k);
    TallySnoc(m, anns + [a], a, aspect, k);
    assert anns + [a] + [a] == anns + [a, a];
  }

  /** One named counter. */
  datatype Segment = Segment(name: string, value: nat)

  /** The report body: the four counters of each aspect. */
  datatype WgsReport = WgsReport(P: seq<Segment>, F: seq<Segment>, C: seq<Segment>)

  /** Four counter values named in slot order. */
  function Named(values: seq<nat>): seq<Segment>
    requires |values| == 4
  {
    [Segment(SlotNames[0], values[0]), Segment(SlotNames[1], values[1]),
     Segment(SlotNames[2], values[2]), Segment(SlotNames[3], values[3])]
  }

  /** The four counters of an aspect, as the report states them. */
  function Segments(m: GeneMap, anns: seq<Annotation>, aspect: string): seq<Segment>
  {
    Named([Tally(m, anns, aspect, 0), Tally(m, anns, aspect, 1),
           Tally(m, anns, aspect, 2), Tally(m, anns, aspect, 3)])
  }

  /** One pass of the report loop: scans the annotations for `Aspects[i]`,
      incrementing that aspect's counters in place. */
  method TallyRow(m: GeneMap, anns: seq<Annotation>, final: array2<nat>, i: nat)
    requires final.Length0 == |Aspects| && final.Length1 == |SlotNames| && i < |Aspects|
    requires forall k :: 0 <= k < 4 ==> final[i, k] == 0
    modifies final
    ensures forall k :: 0 <= k < 4 ==> final[i, k] == Tally(m, anns, Aspects[i], k)
    ensures forall r, k :: 0 <= r < 3 && r != i && 0 <= k < 4 ==> final[r, k] == old(final[r, k])
  {
    var aspect := Aspects[i];
    for j := 0 to |anns|
      invariant forall k :: 0 <= k < 4 ==> final[i, k] == Tally(m, anns[..j], aspect, k)
      invariant forall r, k :: 0 <= r < 3 && r != i && 0 <= k < 4 ==> final[r, k] == old(final[r, k])
    {
      var a := anns[j];
      var id := GetGeneId(m, a);
      assert id != Null <==> Counted(m, a);
      if id != Null {
        if a.Aspect == aspect {
          if a.AnnotationStatus == "EXP" {
            final[i, 0] := final[i, 0] + 1;
          } else if a.AnnotationStatus == "UNKNOWN" {
            final[i, 2] := final[i, 2] + 1;
          } else if a.AnnotationStatus == "OTHER" {
            final[i, 1] := final[i, 1] + 1;
          } else {
            final[i, 3] := final[i, 3] + 1;
          }
        }
      }
      assert anns[..j + 1] == anns[..j] + [a];
      forall k | 0 <= k < 4
        ensures Tally(m, anns[..j + 1], aspect, k) ==
                Tally(m, anns[..j], aspect, k) + if InSlot(m, aspect, k, a) then 1 else 0
      {
        TallySnoc(m, anns[..j], a, aspect, k);
      }
    }
    assert anns[..|anns|] == anns;
  }

  /** Builds the report as the service does: a table of zeroed counters,
      filled in place by one pass over the annotations per aspect. */
  method GetWgs(m: GeneMap, anns: seq<Annotation>) returns (report: WgsReport)
    ensures report == WgsReport(Segments(m, anns, "P"), Segments(m, anns, "F"), Segments(m, anns, "C"))
  {
    var final := new nat[|Aspects|, |SlotNames|]((_, _) => 0);
    for i := 0 to 3
      invariant forall r, k :: 0 <= r < i && 0 <= k < 4 ==> final[r, k] == Tally(m, anns, Aspects[r], k)
      invariant forall r, k :: i <= r < 3 && 0 <= k < 4 ==> final[r, k] == 0
    {
      TallyRow(m, anns, final, i);
    }
    report := WgsReport(Named([final[0, 0], final[0, 1], final[0, 2], final[0, 3]]),
                        Named([final[1, 0], final[1, 1], final[1, 2], final[1, 3]]),
                        Named([final[2, 0], final[2, 1], final[2, 2], final[2, 3]]));
  }
}
