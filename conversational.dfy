/** What the two conversational-AI nodes share: the answer to a DELETE, which
    the API may leave empty, replaced by a success record. */
module Conversational {
  import opened Json

  /** The record a delete answers with when the API's response is empty. */
  function DeletedRecord(message: string): Value
  {
    Obj(map["success" := Bool(true), "message" := Str(message)])
  }

  /** `response || {success: true, message}`. */
  function DeleteFallback(response: Value, message: string): (r: Value)
    ensures Truthy(r)
    ensures Truthy(response) ==> r == response
    ensures !Truthy(response) ==> r == DeletedRecord(message)
  {
    if Truthy(response) then response else DeletedRecord(message)
  }

  /** An empty delete response, whichever falsy value stands for it, reads as
      success; applying the fallback twice changes nothing. */
  lemma DeleteFallbackStable(response: Value, message: string)
    ensures DeleteFallback(DeleteFallback(response, message), message) == DeleteFallback(response, message)
    ensures DeleteFallback(response, message).Obj? || Truthy(response)
  {
  }
}
