/**
 * Cell values of a query result, and the foreign serialisers the exporters
 * apply to them.  Python's `str()`, `json.dumps`, Django's `slugify` and the
 * character cleaning of `get_valid_filename` are not part of this model: they
 * reach the exporters as fields of a `Library` record, so every property
 * proved holds whatever those functions do.
 */
module Values {

  import opened Wrappers

  /** A value as the database driver hands it to the exporters. */
  datatype Value =
    | Null                                  // None
    | Text(s: string)                       // str
    | Int(i: int)                           // int
    | Bool(b: bool)                         // bool
    | DateTime(instant: nat)                // datetime.datetime (an abstract instant)
    | Uuid(id: nat)                         // uuid.UUID
    | Dict(entries: seq<(Value, Value)>)    // dict (JSON columns)
    | List(items: seq<Value>)               // list (array columns)
    | Other(kind: nat, id: nat)             // float, Decimal, date, bytes, ...

  /** A column header: a name, or None. */
  type Header = Option<string>

  /** The foreign functions the exporters call.  The two JSON encoders are
      partial: `None` stands for the TypeError `json.dumps` raises on a value
      its encoder cannot serialise (plain `json.dumps` refuses a datetime
      inside a list, for instance, and DjangoJSONEncoder refuses bytes). */
  datatype Library = Library(
    str: Value -> string,                      // Python's str() (floats through repr())
    jsonDumps: Value -> Option<string>,        // json.dumps without an encoder class
    djangoJsonDumps: Value -> Option<string>,  // json.dumps with cls=DjangoJSONEncoder
    slugify: string -> string,                 // django.utils.text.slugify
    filenameChars: string -> string            // the cleaning step of get_valid_filename
  )
}
