/**
 * The two pure parts of the database setup: the URI guard that runs before
 * any connection attempt, and the `toJSON` transform every schema shares
 * (`_id` is published as `id`, `_id` and `__v` are dropped). A document is a
 * map from field names to values.
 */
module Connect {
  import opened Basics
  import opened Text

  /** Whether the connection may be attempted with this URI, or the error thrown instead. */
  function CheckUri(uri: Option<string>): (r: Result<string, string>)
    ensures r.Ok? <==> uri.Some? && exists i :: 0 <= i < |uri.value| && !IsSpace(uri.value[i])
    ensures r.Ok? ==> r.value == uri.value
    ensures r.Err? ==> r.error == "MONGODB_URI is missing or empty. Please set it in your .env file."
  {
    if uri.None? || |uri.value| == 0 || Trim(uri.value) == "" then
      Err("MONGODB_URI is missing or empty. Please set it in your .env file.")
    else
      TrimEmpty(uri.value);
      Ok(uri.value)
  }

  /** The keys the transform removes. */
  const Hidden: set<string> := {"_id", "__v"}

  /**
   * `ret.id = ret._id; delete ret._id; delete ret.__v`. An absent `_id`
   * assigns `undefined`, which serialisation drops, so `id` is absent too.
   */
  function ToJson<V>(doc: map<string, V>): (r: map<string, V>)
    ensures "_id" !in r && "__v" !in r
    ensures "id" in r <==> "_id" in doc
    ensures "id" in r ==> r["id"] == doc["_id"]
    ensures forall k :: k in doc && k != "_id" && k != "__v" && k != "id" ==> k in r && r[k] == doc[k]
    ensures forall k :: k in r ==> k == "id" || (k in doc && r[k] == doc[k])
  {
    var rest := doc - Hidden - {"id"};
    if "_id" in doc then rest["id" := doc["_id"]] else rest
  }

  /** Renames `id` back to `_id`: the client-side view of a stored document. */
  function FromJson<V>(json: map<string, V>): map<string, V> {
    var rest := json - {"id"};
    if "id" in json then rest["_id" := json["id"]] else rest
  }

  /**
   * Nothing but the version key is lost: a document without a field of its own
   * called `id` is recovered from its serialised form, less `__v`.
   */
  lemma JsonRoundTrip<V>(doc: map<string, V>)
    requires "_id" in doc && "id" !in doc
    ensures FromJson(ToJson(doc)) == doc - {"__v"}
  {
    var r := FromJson(ToJson(doc));
    forall k | k in r
      ensures k in doc - {"__v"} && r[k] == doc[k]
    {
    }
    forall k | k in doc - {"__v"}
      ensures k in r
    {
    }
  }

  /**
   * The transform is applied once, on serialisation: applied to its own
   * output it loses the id.
   */
  lemma ToJsonNotIdempotent<V>(doc: map<string, V>)
    ensures "id" !in ToJson(ToJson(doc))
  {
  }
}
