/** Research genomes and their box (`autonomy/evolution_lab.py`). */
module Genomes {
  import opened Options
  import opened Rounding

  datatype Genome = Genome(shrinkage: real, edge: int, uncertainty: real, price: int)

  const INCUMBENT := Genome(1.0, 3, 0.35, 90)

  predicate IsBounded(g: Genome) {
    0.20 <= g.shrinkage <= 1.35 && 3 <= g.edge <= 20 && 0.08 <= g.uncertainty <= 0.40 && 40 <= g.price <= 90
  }

  function Round4(x: real): real { RoundTo(x, 10000.0) }

  function Clamp(low: real, x: real, high: real): real {
    if x < low then low else if x > high then high else x
  }

  function ClampInt(low: int, x: int, high: int): int {
    if x < low then low else if x > high then high else x
  }

  /** `_bounded_genome`: any genes, moved into the box and onto the four-decimal grid. */
  function BoundedGenome(shrinkage: real, edge: int, uncertainty: real, price: int): Genome
  {
    Genome(Round4(Clamp(0.20, shrinkage, 1.35)), ClampInt(3, edge, 20), Round4(Clamp(0.08, uncertainty, 0.40)), ClampInt(40, price, 90))
  }

  /** `ResearchGenome.from_mapping` on a readable mapping. */
  function FromMapping(g: Genome): Option<Genome> {
    var read := Genome(Round4(g.shrinkage), g.edge, Round4(g.uncertainty), g.price);
    if IsBounded(read) then Some(read) else None
  }
}
