/**
 * The API key store (backend/services/key_service.py): the api_keys table
 * keyed by its UNIQUE provider name, a lookup of the active key and an
 * upsert that writes the key and reactivates the row. A failing database
 * call is an explicit flag.
 */
module KeyService {
  import opened Wrappers

  /** A row of api_keys, without its provider name (the key of the map) and timestamps. */
  datatype KeyRow = KeyRow(apiKey: string, active: bool)

  /** The SELECT of `get_api_key`: the key of an active row; none for a missing or inactive one, or on error. */
  function Lookup(rows: map<string, KeyRow>, name: string, readFails: bool): (k: Option<string>)
    ensures k.Some? <==> !readFails && name in rows && rows[name].active
    ensures k.Some? ==> k.value == rows[name].apiKey
  {
    if readFails || name !in rows || !rows[name].active then None else Some(rows[name].apiKey)
  }

  /**
   * INSERT ... ON CONFLICT(provider_name) DO UPDATE: the provider's row
   * holds the new key and is active, whether it existed or not; no other
   * row changes.
   */
  function Upserted(rows: map<string, KeyRow>, name: string, key: string): (r: map<string, KeyRow>)
    ensures name in r && r[name] == KeyRow(key, true)
    ensures r.Keys == rows.Keys + {name}
    ensures forall n :: n in rows && n != name ==> r[n] == rows[n]
  {
    rows[name := KeyRow(key, true)]
  }

  /** After setting a key, reading it back gives that key, even for a row that had been deactivated. */
  lemma SetThenGet(rows: map<string, KeyRow>, name: string, key: string)
    ensures Lookup(Upserted(rows, name, key), name, false) == Some(key)
  {
  }

  /** Setting one provider's key leaves every other provider's answer as it was. */
  lemma SetLeavesOthers(rows: map<string, KeyRow>, name: string, key: string, other: string, readFails: bool)
    requires other != name
    ensures Lookup(Upserted(rows, name, key), other, readFails) == Lookup(rows, other, readFails)
  {
  }

  /** Setting the same key twice is setting it once. */
  lemma SetIdempotent(rows: map<string, KeyRow>, name: string, key: string)
    ensures Upserted(Upserted(rows, name, key), name, key) == Upserted(rows, name, key)
  {
  }

  /** `KeyService`, holding the api_keys table. */
  class KeyStore {
    var rows: map<string, KeyRow>

    constructor(rows: map<string, KeyRow>)
      ensures this.rows == rows
    {
      this.rows := rows;
    }

    /** `get_api_key`: the active key, or none (an unknown or inactive provider, or a read error). */
    method GetApiKey(name: string, readFails: bool) returns (k: Option<string>)
      ensures k == Lookup(rows, name, readFails)
      ensures k.Some? <==> !readFails && name in rows && rows[name].active
    {
      if readFails {
        return None;
      }
      if name in rows && rows[name].active {
        k := Some(rows[name].apiKey);
      } else {
        k := None;
      }
    }

    /** `set_api_key`: the upsert, or the database error re-raised with nothing written. */
    method SetApiKey(name: string, key: string, writeFails: bool) returns (r: Result<()>)
      modifies this`rows
      ensures writeFails ==> r.Err? && rows == old(rows)
      ensures !writeFails ==> r.Ok? && rows == Upserted(old(rows), name, key)
    {
      if writeFails {
        return Err("database error");
      }
      rows := rows[name := KeyRow(key, true)];
      r := Ok(());
    }
  }
}
