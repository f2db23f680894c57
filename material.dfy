/** Dynamics/Material.swift: how a body behaves when it is hit. */
module Materials {
  datatype Material =
    | Solid(restitution: real)
    | Passthrough

  /** A solid that loses no energy in a collision. */
  const PerfectlyElasticSolid: Material := Solid(1.0)

  /**
   * The restitution of a collision between two materials
   * (`Materials.combinedRestitutiuon`). Material.swift does not define it,
   * so it is not part of this model and is left abstract.
   */
  const CombinedRestitution: (Material, Material) -> real
}
