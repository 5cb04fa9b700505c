/** Types shared by all modules. */
module Wrappers {
  datatype Option<+T> = None | Some(value: T)

  /** How a call goes: acknowledged; refused without effect; or carried out while the operator sees an error. */
  datatype Fate = Acked | Refused | Lost
}
