/**
 * What the three record stores share. Persistence is whole-collection:
 * `load_all` reads one JSON object mapping ids to records and keeps the
 * records that decode; `save_all` writes every record back, replacing the
 * file. `modify` sets allow-listed attributes from keyword arguments.
 */
module RecordStore {
  import opened Wrappers
  import opened Json

  /** What `load_all` finds at the store's path. */
  datatype Stored =
    | Absent                 // no file yet
    | Unreadable             // opening or reading raises OSError
    | Undecodable            // json.load raises JSONDecodeError
    | Document(doc: Value)   // the decoded JSON document

  /** `data.get(key, default)` on a record's dict. */
  function GetOr(fields: map<string, Value>, key: string, default: Value): (v: Value)
    ensures key in fields ==> v == fields[key]
    ensures key !in fields ==> v == default
  {
    if key in fields then fields[key] else default
  }

  /** The records of a raw JSON object that decode, under their original keys. */
  ghost function Decoded<T>(raw: map<string, Value>, decode: Value -> Option<T>): (m: map<string, T>)
  {
    map k | k in raw && decode(raw[k]).Some? :: decode(raw[k]).value
  }

  /** The JSON object `save_all` writes: every record serialized under its key. */
  function Encoded<T>(m: map<string, T>, encode: T -> Value): (raw: map<string, Value>)
    ensures raw.Keys == m.Keys
    ensures forall k :: k in m ==> raw[k] == encode(m[k])
  {
    map k | k in m :: encode(m[k])
  }

  /** The file after `save_all(m)`; writing is taken to succeed. */
  function Saved<T>(m: map<string, T>, encode: T -> Value): (file: Stored)
  {
    Document(Object(Encoded(m, encode)))
  }

  /**
   * What `load_all` returns. An absent file, one that raises OSError and one
   * `json.load` rejects with JSONDecodeError give the empty collection; a document that is not an object makes `raw.items()`
   * raise AttributeError, which nothing catches: None stands for that.
   */
  ghost function Loaded<T>(file: Stored, decode: Value -> Option<T>): (r: Option<map<string, T>>)
  {
    match file
    case Document(Object(raw)) => Some(Decoded(raw, decode))
    case Document(_) => None
    case _ => Some(map[])
  }

  /**
   * The record-filter loop of `load_all`: decode each stored record on its
   * own, keep it under its key when it decodes, skip it otherwise.
   */
  method FilterRecords<T>(raw: map<string, Value>, decode: Value -> Option<T>)
    returns (result: map<string, T>)
    ensures forall k :: k in result <==> k in raw && decode(raw[k]).Some?
    ensures forall k :: k in result ==> result[k] == decode(raw[k]).value
  {
    result := map[];
    var pending := raw.Keys;
    while pending != {}
      invariant pending <= raw.Keys
      invariant forall k :: k in result <==> k in raw && k !in pending && decode(raw[k]).Some?
      invariant forall k :: k in result ==> result[k] == decode(raw[k]).value
      decreases pending
    {
      var k :| k in pending;
      var obj := decode(raw[k]);
      if obj.Some? {
        result := result[k := obj.value];
      }
      pending := pending - {k};
    }
  }

  /** `load_all`, with the file given as a value. */
  method LoadAll<T>(file: Stored, decode: Value -> Option<T>) returns (r: Option<map<string, T>>)
    ensures r == Loaded(file, decode)
    ensures file.Absent? || file.Unreadable? || file.Undecodable? ==> r == Some(map[])
    ensures file.Document? && file.doc.Object? ==>
      r.Some? && forall k :: k in r.value <==> k in file.doc.fields && decode(file.doc.fields[k]).Some?
  {
    match file
    case Document(Object(raw)) =>
      var result := FilterRecords(raw, decode);
      assert result.Keys == Decoded(raw, decode).Keys;
      assert result == Decoded(raw, decode);
      assert Loaded(file, decode) == Some(Decoded(raw, decode));
      r := Some(result);
    case Document(_) =>
      r := None;
    case _ =>
      r := Some(map[]);
  }

  /**
   * Saving and loading again gives back the collection, for any record type
   * whose decoder inverts its encoder.
   */
  lemma SaveLoadRoundTrip<T>(m: map<string, T>, encode: T -> Value, decode: Value -> Option<T>)
    requires forall x :: decode(encode(x)) == Some(x)
    ensures Loaded(Saved(m, encode), decode) == Some(m)
  {
    var raw := Encoded(m, encode);
    var d := Decoded(raw, decode);
    forall k | k in m ensures k in d && d[k] == m[k] {
      assert decode(raw[k]) == Some(m[k]);
    }
    assert d.Keys == m.Keys;
    assert d == m;
    assert Saved(m, encode) == Document(Object(raw));
  }

  // ---------------------------------------------------------------------------
  // modify(record_id, **kwargs)
  // ---------------------------------------------------------------------------

  /** One keyword argument of `modify`. */
  datatype Kwarg = Kwarg(key: string, value: Value)

  /** How a call to `modify` ends. */
  datatype ModifyOutcome =
    | Updated     // True: the record was found and the allow-listed attributes were set
    | NotFound    // False: no record under that id
    | Clash       // TypeError raised while binding the arguments: nothing is loaded or saved

  /**
   * A keyword argument repeats one of the method's named parameters, so
   * Python's argument binding raises TypeError before the body runs.
   */
  predicate Clashes(kwargs: seq<Kwarg>, parameters: set<string>)
  {
    exists i :: 0 <= i < |kwargs| && kwargs[i].key in parameters
  }

  /** The value the last keyword argument named `key` carries, if any. */
  function LastValue(kwargs: seq<Kwarg>, key: string): (r: Option<Value>)
    ensures r.None? <==> forall i :: 0 <= i < |kwargs| ==> kwargs[i].key != key
    ensures r.Some? ==>
      exists i :: 0 <= i < |kwargs| && kwargs[i] == Kwarg(key, r.value) &&
        forall j :: i < j < |kwargs| ==> kwargs[j].key != key
  {
    if kwargs == [] then None
    else if kwargs[|kwargs| - 1].key == key then Some(kwargs[|kwargs| - 1].value)
    else LastValue(kwargs[..|kwargs| - 1], key)
  }

  /**
   * A record's attributes, as its `to_dict` names them, after `setattr` of
   * each allow-listed keyword argument in turn; other keys are ignored.
   */
  function Edited(fields: map<string, Value>, kwargs: seq<Kwarg>, allowed: set<string>)
    : (r: map<string, Value>)
    ensures forall k :: k in r <==> k in fields || (k in allowed && LastValue(kwargs, k).Some?)
    ensures forall k :: k in r ==>
      r[k] == if k in allowed && LastValue(kwargs, k).Some? then LastValue(kwargs, k).value else fields[k]
  {
    if kwargs == [] then fields
    else
      var before := Edited(fields, kwargs[..|kwargs| - 1], allowed);
      var last := kwargs[|kwargs| - 1];
      if last.key in allowed then before[last.key := last.value] else before
  }

  /** The value an attribute holds after `modify`: the last keyword argument naming it, else `current`. */
  function Setting(kwargs: seq<Kwarg>, key: string, current: Value): (v: Value)
    ensures LastValue(kwargs, key).None? ==> v == current
    ensures LastValue(kwargs, key).Some? ==> v == LastValue(kwargs, key).value
  {
    match LastValue(kwargs, key)
    case Some(given) => given
    case None => current
  }

  /**
   * The text a string attribute holds once reloaded after `modify`: `str` of
   * the last keyword argument naming it, or its current text when none does.
   */
  function TextSetting(kwargs: seq<Kwarg>, key: string, current: string): (s: string)
    ensures LastValue(kwargs, key).None? ==> s == current
    ensures LastValue(kwargs, key).Some? ==> s == AsText(LastValue(kwargs, key).value)
  {
    match LastValue(kwargs, key)
    case Some(v) => AsText(v)
    case None => current
  }

  /**
   * The loop of `modify`: `setattr` for each allow-listed keyword argument in
   * turn, a warning (and nothing else) for every other key.
   */
  method ApplyKwargs(fields: map<string, Value>, kwargs: seq<Kwarg>, allowed: set<string>)
    returns (attributes: map<string, Value>)
    ensures attributes == Edited(fields, kwargs, allowed)
  {
    attributes := fields;
    var i := 0;
    while i < |kwargs|
      invariant 0 <= i <= |kwargs|
      invariant attributes == Edited(fields, kwargs[..i], allowed)
    {
      assert kwargs[..i + 1][..i] == kwargs[..i];
      if kwargs[i].key in allowed {
        attributes := attributes[kwargs[i].key := kwargs[i].value];
      }
      i := i + 1;
    }
    assert kwargs[..i] == kwargs;
  }
}
