/** The REST reply envelope (lang/RestResponse.java): a result code, a message and a payload,
    created with the "system busy" code and switched to the success code by `success()`. */
module Responses {
  import opened Wrappers

  /** `BaseMessageCode.E9998`: the system is busy. */
  const E9998: string := "E9998"
  /** `BaseMessageCode.SUCCESS`. */
  const SUCCESS: string := "0000"

  /** The three fields together. */
  datatype Fields<T> = Fields(code: Option<string>, message: Option<string>, data: Option<T>)

  /** The fields after `success()`: the success code, everything else kept. */
  function Succeeded<T>(f: Fields<T>): (r: Fields<T>)
    ensures r.code == Some(SUCCESS) && r.message == f.message && r.data == f.data
  {
    f.(code := Some(SUCCESS))
  }

  /** `success()` is idempotent, and it always overrides the busy code. */
  lemma SucceededIdempotent<T>(f: Fields<T>)
    ensures Succeeded(Succeeded(f)) == Succeeded(f)
    ensures Succeeded(f).code != Some(E9998)
  {
  }

  class RestResponse<T> {
    var code: Option<string>
    var message: Option<string>
    var data: Option<T>

    /** All three fields. */
    function State(): Fields<T>
      reads this
    {
      Fields(code, message, data)
    }

    /** `new RestResponse()`: the busy code, no message, no data. */
    constructor()
      ensures State() == Fields(Some(E9998), None, None)
    {
      code := Some(E9998);
      message := None;
      data := None;
    }

    /** `success()`. */
    method Success()
      modifies this
      ensures State() == Succeeded(old(State()))
    {
      code := Some(SUCCESS);
    }

    /** `setCode(code)`: only the code changes. */
    method SetCode(code: Option<string>)
      modifies this
      ensures State() == old(State()).(code := code)
    {
      this.code := code;
    }

    /** `setMessage(message)`: only the message changes. */
    method SetMessage(message: Option<string>)
      modifies this
      ensures State() == old(State()).(message := message)
    {
      this.message := message;
    }

    /** `setData(data)`: only the payload changes. */
    method SetData(data: Option<T>)
      modifies this
      ensures State() == old(State()).(data := data)
    {
      this.data := data;
    }
  }
}
