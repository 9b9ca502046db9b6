/**
 * What the client's stores share: the browser's `localStorage`, of which the
 * client uses only the "token" key, and the `error` field of failure replies.
 */
module ClientCommon {
  import opened Wrappers

  /** The `error` field of a failure reply: one message, or the list of validation messages. */
  datatype ErrorValue = Message(text: string) | Messages(texts: seq<string>)

  /** `localStorage` restricted to the "token" key. */
  class TokenStorage {
    var token: Option<string>

    constructor (initial: Option<string>)
      ensures token == initial
    {
      token := initial;
    }

    /** `localStorage.setItem("token", t)`. */
    method SetItem(t: string)
      modifies this
      ensures token == Some(t)
    {
      token := Some(t);
    }

    /** `localStorage.removeItem("token")`. */
    method RemoveItem()
      modifies this
      ensures token == None
    {
      token := None;
    }
  }
}
