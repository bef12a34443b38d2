/** Types shared by the driver and the outbound lifecycle (`models.rs`). */
module Models {

  /** The status of an outbound message. */
  datatype MessageStatus = Queued | Sent | Failed
}
