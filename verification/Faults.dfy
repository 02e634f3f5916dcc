/** What may become of a call to a remote service. */
module Faults {
  /** It works; it fails without effect; it takes effect and reports a failure. */
  datatype Fault = NoFault | Before | After
}
