/** What the pages and the edge function receive from the hosting platform:
    the signed-in user, the answer of the credential table, and the
    browser's per-device key-value storage. The platform itself is not
    modelled; its answers are inputs. */
module Platform {
  import opened Types

  /** The user returned by `auth.getUser()` (only the id is read). */
  datatype User = User(id: string)

  /** The answer of
      `from('provider_credentials').select('api_key').eq(...).eq(...).single()`:
      an error object, no row, or a row whose `api_key` may be null. */
  datatype CredentialLookup =
    | DbError(message: string)
    | NoRow
    | Row(apiKey: Option<string>)

  /** The negation of `dbError || !credential || !credential.api_key`. */
  predicate HasApiKey(c: CredentialLookup)
    ensures HasApiKey(c) <==> !(c.DbError? || c.NoRow? || c.apiKey.GetOr("") == "")
    ensures HasApiKey(c) ==> c.Row? && c.apiKey.Some?
  {
    c.Row? && c.apiKey.Some? && c.apiKey.value != ""
  }

  /** The two fixed `localStorage` keys under which the settings page
      saves the ElevenLabs and the Google/Gemini API keys. */
  const ElevenLabsStorageKey: string := "elevenLabsApiKey"
  const GeminiStorageKey: string := "geminiApiKey"

  /** The browser's `localStorage`: string keys to string values. */
  class KeyValueStore {
    var items: map<string, string>

    constructor (initial: map<string, string>)
      ensures items == initial
    {
      items := initial;
    }

    /** `getItem(key)`: the stored value, or null when the key is absent. */
    function GetItem(key: string): (r: Option<string>)
      reads this
      ensures r.Some? <==> key in items
      ensures r.Some? ==> r.value == items[key]
    {
      if key in items then Some(items[key]) else None
    }

    /** `setItem(key, value)`: overwrites one key and no other. */
    method SetItem(key: string, value: string)
      modifies this
      ensures items == old(items)[key := value]
      ensures GetItem(key) == Some(value)
      ensures forall k :: k != key ==> GetItem(k) == old(GetItem(k))
    {
      items := items[key := value];
    }
  }
}
