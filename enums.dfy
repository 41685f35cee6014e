/** The status codes of a quiz session (`STATUS_CODES`). */
module Enums {

  /** The coarse phase of the quiz: one of five frozen tags. */
  datatype Status = Loading | Error | Ready | Active | Finished
}
