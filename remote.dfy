/** The note service as the exporter sees it: the requests it sends to the REST interface,
    the replies it reads back, and a connection that records every request in order.
    The service itself is a function from the history of requests (the current one
    last) to the reply, so any server behaviour, failures included, can be plugged in. */
module Remote {
  import opened Wrappers

  /** The fields of the note the exporter creates. */
  datatype NoteData = NoteData(
    title: string,
    parentId: string,
    isTodo: int,
    author: string,
    userCreatedTime: int,
    body: Option<string>,
    bodyHtml: Option<string>)

  datatype Request =
    | CreateNote(note: NoteData)                      // POST notes
    | UpdateNote(noteId: string, body: string)        // PUT notes/<id>
    | SearchTag(query: string)                        // GET search, type=tag
    | CreateTag(title: string)                        // POST tags
    | AttachTag(tagId: string, noteId: string)        // POST tags/<id>/notes
    | CreateResource(title: string, partName: string) // POST resources

  /** One element of the `items` of a search reply. */
  datatype TagItem = TagItem(id: string, title: string)

  /** A reply: a successful one carries the fields of its JSON body the exporter reads,
      a failed one the text of the response. */
  datatype Reply = Ok(id: string, body: string, items: seq<TagItem>) | Fail(text: string)

  type Service = seq<Request> -> Reply

  /** A connection to the service that keeps the log of requests sent so far. */
  class RemoteApi {
    var log: seq<Request>
    const respond: Service

    constructor(respond: Service)
      ensures log == [] && this.respond == respond
    {
      this.log := [];
      this.respond := respond;
    }

    /** Sends one request and returns the service's reply to it. */
    method Send(request: Request) returns (reply: Reply)
      modifies this
      ensures log == old(log) + [request]
      ensures reply == respond(log)
    {
      log := log + [request];
      reply := respond(log);
    }
  }
}
