/** How an execution may be authorised. */
module Modes {
  const MANUAL := "approved_manual"
  const PREAUTHORIZED := "preauthorized_bounded"
}
