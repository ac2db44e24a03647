/**
 * The session the handlers read and write: a token and a key/value map, as the
 * session manager exposes them to one request. Storage, cookies and lifetimes
 * are not part of this model.
 */
module Session {
  import opened Wrappers
  import opened Unicode
  import opened Database

  /** The two kinds of value the handlers store: an id and a flash message. */
  datatype Value = IntValue(i: int) | StringValue(s: String)

  /** One change to the session, in the order the handler made it. */
  datatype Event = Renewed | Stored(key: String, value: Value) | Removed(key: String) | Popped(key: String)

  const AuthenticatedUserId: String := "authenticatedUserID"
  const Flash: String := "flash"

  class SessionManager {
    var token: String
    var values: map<String, Value>
    /** Every change made so far, oldest first. */
    ghost var history: seq<Event>

    constructor (token: String, values: map<String, Value>)
      ensures this.token == token && this.values == values && history == []
    {
      this.token := token;
      this.values := values;
      history := [];
    }

    method Put(key: String, v: Value)
      modifies this
      ensures token == old(token)
      ensures values == old(values)[key := v]
      ensures history == old(history) + [Stored(key, v)]
    {
      values := values[key := v];
      history := history + [Stored(key, v)];
    }

    method Remove(key: String)
      modifies this
      ensures token == old(token)
      ensures values == old(values) - {key}
      ensures history == old(history) + [Removed(key)]
    {
      values := values - {key};
      history := history + [Removed(key)];
    }

    /** GetInt: the stored integer, or 0 when the key is missing or holds another kind of value. */
    function GetInt(key: String): (r: int)
      reads this
      ensures r != 0 ==> key in values && values[key] == IntValue(r)
      ensures key in values && values[key].IntValue? ==> r == values[key].i
    {
      if key in values && values[key].IntValue? then values[key].i else 0
    }

    /** PopString: the stored string ("" when missing or not a string); the key is
        removed whatever it held. */
    method PopString(key: String) returns (s: String)
      modifies this
      ensures token == old(token)
      ensures values == old(values) - {key}
      ensures key in old(values) && old(values)[key].StringValue? ==> s == old(values)[key].s
      ensures !(key in old(values) && old(values)[key].StringValue?) ==> s == []
      ensures history == old(history) + (if key in old(values) then [Popped(key)] else [])
    {
      if key !in values {
        return [];
      }
      s := if values[key].StringValue? then values[key].s else [];
      values := values - {key};
      history := history + [Popped(key)];
    }

    /**
     * RenewToken: move the data to a new token (`newToken`, which the manager
     * generates). `store` is the outcome of deleting the old token from the store;
     * on a failure nothing changes and the error code is returned.
     */
    method RenewToken(store: Io, newToken: String) returns (err: Option<nat>)
      modifies this
      ensures values == old(values)
      ensures store.Broken? ==> err == Some(store.code) && token == old(token) && history == old(history)
      ensures store == Ready ==> err == None && token == newToken && history == old(history) + [Renewed]
    {
      if store.Broken? {
        return Some(store.code);
      }
      token := newToken;
      history := history + [Renewed];
      err := None;
    }
  }
}
