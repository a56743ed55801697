/** The gene index: GeneID to gene, built once from the gene-type records. */
module GeneIndex {
  import opened Records

  /** The key a header row of the gene-type file would introduce; it is
      deleted from the index after it is built. */
  const HeaderKey: string := "name"

  /** `g` is the last gene of `genes` whose GeneID is `k`. */
  ghost predicate LastWithId(genes: seq<Gene>, k: string, g: Gene)
  {
    exists i :: 0 <= i < |genes| && genes[i] == g && g.GeneID == k &&
      forall j :: i < j < |genes| ==> genes[j].GeneID != k
  }

  /** The reduce accumulator after folding `genes` from left to right: every
      gene is stored under its GeneID, a later gene overwriting an earlier one. */
  function Accumulated(genes: seq<Gene>): (m: GeneMap)
    ensures forall k :: k in m <==> exists i :: 0 <= i < |genes| && genes[i].GeneID == k
    ensures forall k :: k in m ==> LastWithId(genes, k, m[k])
  {
    if genes == [] then map[]
    else
      var init := genes[..|genes| - 1];
      var g := genes[|genes| - 1];
      var prev := Accumulated(init);
      var m := prev[g.GeneID := g];
      AccumulatedStep(genes, prev, m);
      m
  }

  /** One step of the reduce keeps both postconditions of `Accumulated`. */
  lemma AccumulatedStep(genes: seq<Gene>, prev: GeneMap, m: GeneMap)
    requires |genes| > 0
    requires forall k :: k in prev <==> exists i :: 0 <= i < |genes| - 1 && genes[i].GeneID == k
    requires forall k :: k in prev ==> LastWithId(genes[..|genes| - 1], k, prev[k])
    requires m == prev[genes[|genes| - 1].GeneID := genes[|genes| - 1]]
    ensures forall k :: k in m <==> exists i :: 0 <= i < |genes| && genes[i].GeneID == k
    ensures forall k :: k in m ==> LastWithId(genes, k, m[k])
  {
  }

  /** The index as the service holds it: the accumulated map without the header key. */
  function GeneMapOf(genes: seq<Gene>): (m: GeneMap)
    ensures HeaderKey !in m
    ensures forall k :: k in m <==> k != HeaderKey && exists i :: 0 <= i < |genes| && genes[i].GeneID == k
    ensures forall k :: k in m ==> LastWithId(genes, k, m[k])
    ensures Keyed(m)
  {
    Accumulated(genes) - {HeaderKey}
  }

  /** Builds the index as the service does: a loop that writes each gene into
      one accumulator map, followed by deleting the header key. */
  method BuildGeneMap(genes: seq<Gene>) returns (m: GeneMap)
    ensures m == GeneMapOf(genes)
  {
    m := map[];
    for i := 0 to |genes|
      invariant m == Accumulated(genes[..i])
    {
      assert genes[..i + 1][..i] == genes[..i];
      m := m[genes[i].GeneID := genes[i]];
    }
    assert genes[..|genes|] == genes;
    m := m - {HeaderKey};
  }
}
