/** One attempt to take the lock and the handle it gives, on the memory store. The interleaving of many contenders is
    the subject of `Lock`. */
module Handles {
  import opened Text
  import opened Storage

  const NOT_OWNER := "repository lock is owned by someone else"

  /** `decodeOwner`: the token of a stored owner. */
  type Decoder = string -> Option<string>

  class Handle {
    const path: string
    const token: string
    const etag: string
    var released: bool

    constructor (path: string, token: string, etag: string)
      ensures this.path == path && this.token == token && this.etag == etag && !released
    {
      this.path, this.token, this.etag, released := path, token, etag, false;
    }

    /** Gives the lock up: deletes the lock object exactly when it has this owner's token inside and his ETag, is
        content when it is gone already, and otherwise leaves it and reports that. A second call does nothing. */
    method Release(store: MemoryStore, decode: Decoder) returns (r: Result<()>)
      requires store.Valid()
      modifies this`released, store
      ensures store.Valid()
      ensures old(released) ==> r == Ok(()) && released && store.objects == old(store.objects)
      ensures !old(released) ==>
                var p := JoinKey(store.prefix, path);
                if p.Err? then r == Err(p.reason) && !released && store.objects == old(store.objects)
                else if p.value !in old(store.objects) then r == Ok(()) && released
                    && store.objects == old(store.objects)
                else if
                  decode(old(store.objects)[p.value].data) == Some(token)
                  && TrimETag(old(store.objects)[p.value].md5) == TrimETag(etag)
                then
                  r == Ok(()) && released && store.objects == old(store.objects) - {p.value}
                else r == Err(NOT_OWNER) && !released && store.objects == old(store.objects)
    {
      if released {
        return Ok(());
      }
      var body := store.Get(path);
      if body == Err(NOT_FOUND) {
        released := true;
        return Ok(());
      }
      if body.Err? {
        return Err(body.reason);
      }
      if decode(body.value) != Some(token) {
        return Err(NOT_OWNER);
      }
      var deleted := store.DeleteIfMatch(path, etag);
      if deleted.Err? {
        return Err(NOT_OWNER);
      }
      released := true;
      return Ok(());
    }
  }

  /** One attempt of `Acquire`: creates the lock object unless another body is there, and reads back its ETag. It
      takes the lock exactly when no other body is in the way. */
  method Attempt(store: MemoryStore, path: string, token: string, body: string) returns (handle: Handle?)
    requires store.Valid()
    modifies store
    ensures store.Valid()
    ensures var p := JoinKey(store.prefix, path);
            if p.Err? || (p.value in old(store.objects) && old(store.objects)[p.value].md5 != store.md5(body)) then
              handle == null && store.objects == old(store.objects)
            else
              && handle != null && fresh(handle) && !handle.released
              && handle.path == path && handle.token == token && handle.etag == store.md5(body)
              && p.value in store.objects && store.objects[p.value].md5 == handle.etag
              && store.objects == if p.value in old(store.objects) then old(store.objects)
                                  else old(store.objects)[p.value := Blob(body, store.md5(body))]
  {
    var created := store.Put(path, body, PutOptions(true, false));
    if created.Err? {
      return null;
    }
    var etag := store.Head(path);
    if etag.Err? {
      return null;
    }
    handle := new Handle(path, token, etag.value);
  }

  /** Taking a free lock and releasing it leaves the store as it was. */
  method TakeAndRelease(store: MemoryStore, path: string, token: string, body: string, decode: Decoder)
    requires store.Valid() && JoinKey(store.prefix, path).Ok? && JoinKey(store.prefix, path).value !in store.objects
    requires decode(body) == Some(token)
    modifies store
    ensures store.objects == old(store.objects)
  {
    var handle := Attempt(store, path, token, body);
    var released := handle.Release(store, decode);
  }
}
