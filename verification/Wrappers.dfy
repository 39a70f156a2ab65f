/** The nullable column, and the few number helpers several modules share. */
module Wrappers {

  datatype Option<+T> = None | Some(value: T)
  {
    function GetOr(default: T): T {
      match this
      case Some(v) => v
      case None => default
    }
  }

  /** A point on the globe, in degrees. */
  datatype Position = Position(lat: real, lon: real)

  /** Great-circle distance in nautical miles, left uninterpreted. */
  type Distance = (Position, Position) -> real

  /** What the recorder, the matcher and the route progress rely on of a distance. */
  ghost predicate IsMetric(dist: Distance) {
    && (forall a, b :: dist(a, b) >= 0.0 && dist(a, b) == dist(b, a))
    && (forall a :: dist(a, a) == 0.0)
    && (forall a, b, c :: dist(a, c) <= dist(a, b) + dist(b, c))
  }

  /** Math.round(x * 10) / 10 */
  function RoundTenth(x: real): real {
    (x * 10.0 + 0.5).Floor as real / 10.0
  }

  /** Math.round(x) */
  function RoundReal(x: real): int {
    (x + 0.5).Floor
  }

  function Max(a: int, b: int): int {
    if a >= b then a else b
  }
}
