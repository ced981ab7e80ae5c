/** An outgoing `*http.Request`: a method, a URL, a body and the headers that
    signing code adds to it in place. */
module Http {

  class Request {
    const verb: string
    const url: string
    const body: string
    /** The headers added with `Header.Add`, in the order they were added. */
    var headers: seq<(string, string)>

    constructor(verb: string, url: string, body: string)
      ensures this.verb == verb && this.url == url && this.body == body
      ensures headers == []
    {
      this.verb := verb;
      this.url := url;
      this.body := body;
      headers := [];
    }

    /** `request.Header.Add(name, value)`. */
    method AddHeader(name: string, value: string)
      modifies this
      ensures headers == old(headers) + [(name, value)]
    {
      headers := headers + [(name, value)];
    }
  }
}
