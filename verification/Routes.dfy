/** The parts of a route template. */
module Routes {
  /** A segment of a path is a whole literal or a whole parameter. */
  datatype Segment = Literal(text: string) | Param(name: string)
}
