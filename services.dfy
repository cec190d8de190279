/** What the Python servicers share: the `general_pb2.GeneralResponse` object
    they fill in field by field, and Python's rendering of an optional string
    inside `str.format`. */
module Services {
  import opened Wrappers
  import opened Proto

  /** A `GeneralResponse` message object, mutated in place by the handlers. */
  class Response {
    var resultType: ResultType
    var error: string

    /** `general_pb2.GeneralResponse()`: every field at its zero value. */
    constructor()
      ensures resultType == OK && error == ""
    {
      resultType := OK;
      error := "";
    }

    /** The message's current contents as a value. */
    function Value(): GeneralResponse
      reads this
    {
      GeneralResponse(resultType, error)
    }

    /** `resp.result_type = t; resp.error = e`, or taking over the fields of a response another call returned. */
    method Set(t: ResultType, e: string)
      modifies this
      ensures resultType == t && error == e
    {
      resultType := t;
      error := e;
    }
  }

  /** `'{}'.format(x)` for a value that may be `None`. */
  function ShowOpt(o: Option<string>): string {
    match o
    case None => "None"
    case Some(s) => s
  }
}
