/** Task ids: persistent tasks are numbered below the transient bit and
    transient tasks from it upwards. */
module TaskIds {
  /** The bit that marks a transient task id. */
  const TransientTaskBit: nat := 0x8000_0000

  /** `TaskId::is_transient`: the id lies in the transient range. */
  predicate IsTransient(task: nat) {
    task >= TransientTaskBit
  }
}
