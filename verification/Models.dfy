/** The three candidate models, in the fixed order of the protocol's model list. */
module Models {

  datatype Model = Ax31Light | Ax31 | Axk1Think {
    function Index(): nat {
      match this
      case Ax31Light => 0
      case Ax31 => 1
      case Axk1Think => 2
    }
  }

  /** A mapping with exactly one entry for each model. */
  datatype PerModel<T> = PerModel(light: T, mid: T, high: T) {
    function At(m: Model): T {
      match m
      case Ax31Light => light
      case Ax31 => mid
      case Axk1Think => high
    }
  }

  predicate StrictlyIncreasing(c: PerModel<real>) {
    0.0 < c.light < c.mid < c.high
  }
}
