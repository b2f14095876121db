/** How the pages see a call to the backend: the transport itself is not modelled, only
    what the awaited call yields. */
module Api {

  /** A settled request: `Done` with the parsed body (null for an empty body), or
      `Failed` with the message of the error it threw. */
  datatype Reply<+T> = Done(body: T) | Failed(message: string)
}
