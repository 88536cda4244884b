/**
 * The delete route of the memory endpoints (app/api/memory.py): a false result from the
 * adapter becomes a 404, any other exception a 500.
 */
module MemoryApi {
  import opened Wrappers
  import ChromaStore
  import Upload

  function NotFound(id: string): string {
    "Memory " + id + " not found"
  }

  function DeletedMessage(id: string): string {
    "Memory " + id + " deleted successfully"
  }

  /** The route's response: the store afterwards, and its message or HTTP error. */
  datatype DeleteReply = DeleteReply(store: ChromaStore.Collection, result: Result<string, Upload.HttpError>)

  /** How the route turns the adapter's verdict into a response. */
  function Respond(id: string, deleted: (ChromaStore.Collection, bool)): (r: DeleteReply)
    ensures r.store == deleted.0
    ensures deleted.1 <==> r.result == Ok(DeletedMessage(id))
    ensures !deleted.1 <==> r.result == Err(Upload.HttpError(404, NotFound(id)))
  {
    if deleted.1 then DeleteReply(deleted.0, Ok(DeletedMessage(id)))
    else DeleteReply(deleted.0, Err(Upload.HttpError(404, NotFound(id))))
  }

  /** The route over `delete_memory` as written, which reports success for any id. */
  function DeleteRouteAsWritten(c: ChromaStore.Collection, id: string, fault: Option<string>): (r: DeleteReply)
    ensures r.result.Err? <==> fault.Some?
    ensures r.result.Err? ==> r.result.error == Upload.HttpError(404, NotFound(id)) && r.store == c
  {
    Respond(id, ChromaStore.DeleteMemory(c, id, fault))
  }

  /**
   * With the adapter as written, deleting an id that was never stored answers "deleted
   * successfully": the route's "not found" answer never concerns a missing id.
   */
  lemma UnknownIdReportedDeleted(c: ChromaStore.Collection, id: string)
    requires !ChromaStore.Stored(c, id)
    ensures DeleteRouteAsWritten(c, id, None) == DeleteReply(c, Ok(DeletedMessage(id)))
  {
    ChromaStore.DeleteUnknownIdSucceeds(c, id);
  }

  /**
   * `delete_memory(memory_id)` over the adapter that reports whether the id was stored:
   * 404 exactly for an id not stored (or a raising delete), and the record gone otherwise.
   */
  function DeleteRoute(c: ChromaStore.Collection, id: string, fault: Option<string>): (r: DeleteReply)
    ensures r.result == Err(Upload.HttpError(404, NotFound(id))) <==> fault.Some? || !ChromaStore.Stored(c, id)
    ensures r.result.Ok? ==>
      && r.result.value == DeletedMessage(id)
      && r.store == ChromaStore.Collection(c.name, ChromaStore.WithoutId(c.records, id))
    ensures r.result.Err? ==> r.store == c
  {
    Respond(id, ChromaStore.DeleteStoredMemory(c, id, fault))
  }

  /** Over the corrected adapter, an id that was never stored is answered with 404. */
  lemma UnknownIdNotFound(c: ChromaStore.Collection, id: string)
    requires !ChromaStore.Stored(c, id)
    ensures DeleteRoute(c, id, None) == DeleteReply(c, Err(Upload.HttpError(404, NotFound(id))))
  {
  }
}
