/** How handler results are stored for replay and delivered, with and without a snapshot. */
module ResultCodec {
  import opened Results
  import opened Json
  import opened Models

  datatype ResultMode = Replayable | CompletionOnly

  datatype CodecError = ContractViolated | ResultNotStored | ReplayUnavailable

  /** The registered schema of a result: what it accepts, and its JSON form and back. */
  datatype Codec<!T> = Codec(schemaVersion: nat, accepts: T -> bool, dump: T -> Json, load: Json -> Option<T>)

  /** The schema library reads back what it has written. */
  ghost predicate Lawful<T(!new)>(c: Codec<T>) {
    c.schemaVersion >= 1 && forall x :: c.accepts(x) ==> c.load(c.dump(x)) == Some(x)
  }

  function Snapshot<T>(c: Codec<T>, x: T): StoredResult {
    StoredResult("snapshot", Some(map["value" := c.dump(x)]), c.schemaVersion, None, None, None)
  }

  function Encode<T>(c: Codec<T>, x: T): Result<StoredResult, CodecError> {
    if c.accepts(x) then Ok(Snapshot(c, x)) else Err(ContractViolated)
  }

  function Decode<T>(c: Codec<T>, stored: StoredResult): Result<T, CodecError> {
    if stored.IsCompletionOnly() then Err(ResultNotStored)
    else if stored.resultVersion != c.schemaVersion then Err(ReplayUnavailable)
    else if stored.payload.None? || stored.payload.value.Keys != {"value"} then Err(ReplayUnavailable)
    else
      var x := c.load(stored.payload.value["value"]);
      if x.Some? then Ok(x.value) else Err(ReplayUnavailable)
  }

  /** What a dispatch stores for its handler's result: the contract is checked before commit in both modes. */
  function Store<T>(mode: ResultMode, c: Codec<T>, x: T): Result<StoredResult, CodecError> {
    match mode
    case CompletionOnly => if c.accepts(x) then Ok(COMPLETION) else Err(ContractViolated)
    case Replayable => Encode(c, x)
  }

  /** What a dispatch returns for a stored result. */
  function Deliver<T>(mode: ResultMode, c: Codec<T>, stored: StoredResult): Result<Option<T>, CodecError> {
    match mode
    case CompletionOnly => Ok(None)
    case Replayable =>
      var r := Decode(c, stored);
      if r.Ok? then Ok(Some(r.value)) else Err(r.error)
  }

  /**
   Every combination of the mode that stored a result and the mode that asks for it: a snapshot is delivered
   as the value the handler returned, a marker is refused to those who want a value, and what is stored is valid.
   */
  lemma StoreThenDeliver<T(!new)>(c: Codec<T>, x: T, storing: ResultMode, asking: ResultMode)
    requires Lawful(c)
    ensures Store(storing, c, x).Ok? <==> c.accepts(x)
    ensures c.accepts(x) ==>
              var stored := Store(storing, c, x).value;
              && stored.Valid()
              && (stored.IsCompletionOnly() <==> storing.CompletionOnly?)
              && Deliver(asking, c, stored) ==
                 if asking.CompletionOnly? then Ok(None)
                 else if storing.CompletionOnly? then Err(ResultNotStored)
                 else Ok(Some(x))
  {
    var m := map["value" := c.dump(x)];
    assert m.Keys == {"value"};
  }

  /** Only markers are refused as not stored, and every other mismatch is reported as such. */
  lemma NotStoredMeansMarker<T>(c: Codec<T>, stored: StoredResult)
    ensures Deliver(Replayable, c, stored) == Err(ResultNotStored) <==> stored.IsCompletionOnly()
    ensures Deliver(Replayable, c, stored).Ok? ==> stored.resultVersion == c.schemaVersion
  {
  }

  /**
   A snapshot written under one schema and read under another: a value comes out exactly if the versions agree and
   the reading schema accepts the text, and anything else is reported as a replay that is unavailable.
   */
  lemma SchemaChangeIsNoticed<T>(writer: Codec<T>, reader: Codec<T>, x: T)
    requires writer.accepts(x)
    ensures var stored := Store(Replayable, writer, x);
            stored.Ok? &&
            Deliver(Replayable, reader, stored.value) ==
              if writer.schemaVersion == reader.schemaVersion && reader.load(writer.dump(x)).Some?
              then Ok(reader.load(writer.dump(x)))
              else Err(ReplayUnavailable)
  {
    var m := map["value" := writer.dump(x)];
    assert m.Keys == {"value"};
  }
}
