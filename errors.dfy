/**
  The faults a request can run into. Every one of them ends, at the top of the
  handler, as a 500 response that carries the fault as its `details`.
 */
module Errors {

  /** One kind of call the handler makes on the document store. */
  datatype StoreOp =
    | ProbeScan               // the one-item scan that decides whether to seed
    | FullScan                // scan of the whole table for a list request
    | LocationQuery           // query of the location index
    | GetItem                 // read by coach_id
    | PutItem(key: string)    // unconditional write of the item with this coach_id
    | UpdateItem              // partial update by coach_id
    | DeleteItem              // removal by coach_id

  datatype Fault =
    | StoreUnavailable(op: StoreOp)  // the store call `op` raised (connectivity, throttling, ...)
    | ValidationException            // the store refused a request it cannot read
    | TypeError                      // a JavaScript property access on null or a non-string
    | SyntaxError                    // JSON.parse refused the request body
}
