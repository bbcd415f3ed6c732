/**
  The implementation context as a `cache` call sees it: every request is
  recorded in order, and the field handed out is chosen by `resolve` from the
  request and the requests received before it. How a real context picks the
  name of a synthetic field and fills the static initializer is not part of
  this model, so nothing here promises that equal requests get equal fields.
*/
module Implementation {
  import opened Description

  /** One `cache` call: the manipulation whose value is to be cached and the type the value is read as. */
  datatype CacheRequest<K> = CacheRequest(key: K, fieldType: TypeDescription)

  class Context<K> {
    /** The field the context answers with, given the earlier requests and the current one. */
    const resolve: (seq<CacheRequest<K>>, CacheRequest<K>) -> FieldDescription
    /** Every `cache` call received so far, oldest first. */
    var requests: seq<CacheRequest<K>>

    constructor (resolve: (seq<CacheRequest<K>>, CacheRequest<K>) -> FieldDescription)
      ensures this.resolve == resolve && requests == []
    {
      this.resolve := resolve;
      requests := [];
    }

    /** Records the request and answers with the field that holds the cached value. */
    method Cache(key: K, fieldType: TypeDescription) returns (field: FieldDescription)
      modifies this
      ensures requests == old(requests) + [CacheRequest(key, fieldType)]
      ensures field == resolve(old(requests), CacheRequest(key, fieldType))
    {
      field := resolve(requests, CacheRequest(key, fieldType));
      requests := requests + [CacheRequest(key, fieldType)];
    }
  }
}
