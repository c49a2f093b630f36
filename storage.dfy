/** The browser's process-wide `localStorage`, where login keeps the bearer token. */
module Storage {
  import opened Types

  const AccessTokenKey: string := "accessToken"

  class LocalStorage {
    var entries: map<string, string>

    constructor (entries: map<string, string>)
      ensures this.entries == entries
    {
      this.entries := entries;
    }

    function GetItem(key: string): (r: Option<string>)
      reads this
      ensures r.Some? <==> key in entries
      ensures r.Some? ==> r.value == entries[key]
    {
      if key in entries then Some(entries[key]) else None
    }

    method SetItem(key: string, value: string)
      modifies this
      ensures entries == old(entries)[key := value]
    {
      entries := entries[key := value];
    }

    method RemoveItem(key: string)
      modifies this
      ensures entries == old(entries) - {key}
    {
      entries := entries - {key};
    }
  }

  /** `!!localStorage.getItem('accessToken')`: `getItem` yields a token, and the
      token is not the empty string, which is falsy in JavaScript. */
  function HasSession(storage: LocalStorage): (r: bool)
    reads storage
    ensures r <==> AccessTokenKey in storage.entries && storage.entries[AccessTokenKey] != ""
  {
    var token := storage.GetItem(AccessTokenKey);
    token.Some? && token.value != ""
  }
}
