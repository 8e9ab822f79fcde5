/** How an answer of the remote service reaches a handler: the `.then` branch with the
    response body, or the `.catch` branch. */
module Remote {

  datatype Response<+T> = Ok(data: T) | Failed
}
