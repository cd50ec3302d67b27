/** Chat requests (internal/chat, internal/openai), as far as policy, routing and retrieval look at them. */
module Chat {
  import opened Wrappers

  /** The retrieval overrides hang off the request by a pointer, so copies of a request share them. */
  class RetrievalOptions {
    var enabled: Option<bool>
    var topK: Option<int>
    var maxContextChars: Option<int>

    constructor ()
      ensures enabled.None? && topK.None? && maxContextChars.None?
    {
      enabled, topK, maxContextChars := None, None, None;
    }
  }

  datatype Message = Message(role: string, content: string)

  datatype Request = Request(model: string, messages: seq<Message>, stream: bool, retrieval: RetrievalOptions?)
}
