/**
 * `extract_device_records_from_response`: each item of the response's
 * `results` list becomes one device record by copying a fixed, ordered list
 * of keys. A missing key is a `KeyError` that fails the whole call.
 *
 * The source's key list names `DECISION_DESCRIPTION_FIELD`, which the module
 * never defines, so evaluating the record display raises `NameError` on the
 * first item. `RecordKeysAsWritten` keeps that list as written; the rest of
 * the model uses `DeviceRecordKeys`, where that entry is the constant
 * "decision_description" the surrounding `*_KEY` constants evidently intend.
 */
module Records {
  import opened Wrappers

  /** One object of the response's `results` list, by key. */
  type Item<V> = map<string, V>

  /** A device record: the copied keys, in order, each with its value. */
  type Record<V> = seq<(string, V)>

  /** What the transport returns: the HTTP status and, when the body has one, its `results` list. */
  datatype Response<V> = Response(status: int, results: Option<seq<Item<V>>>)

  /** `KeyError` for a missing key; `NameError` for an identifier that is not defined. */
  datatype ExtractError = MissingKey(key: string) | UnboundName(name: string)

  const ResultsKey: string := "results"

  const Address1Key: string := "address_1"
  const ApplicantKey: string := "applicant"
  const ContactKey: string := "contact"
  const CountryCodeKey: string := "country_code"
  const StateKey: string := "state"
  const DateReceivedKey: string := "date_received"
  const DecisionDateKey: string := "decision_date"
  const DecisionCodeKey: string := "decision_code"
  const DecisionDescriptionKey: string := "decision_description"
  const DeviceNameKey: string := "device_name"
  const KNumberKey: string := "k_number"

  /** A key expression of the record display: a defined constant, or a name that is not defined. */
  datatype KeyExpr = KeyConst(key: string) | Undefined(ident: string)

  /** The record's keys, in display order, with the decision description key defined. */
  const DeviceRecordKeys: seq<string> := [
    Address1Key, ApplicantKey, ContactKey, CountryCodeKey, StateKey,
    DateReceivedKey, DecisionDateKey, DecisionCodeKey, DecisionDescriptionKey,
    DeviceNameKey, KNumberKey
  ]

  /** The record display's keys as the source writes them. */
  const RecordKeysAsWritten: seq<KeyExpr> := [
    KeyConst(Address1Key), KeyConst(ApplicantKey), KeyConst(ContactKey),
    KeyConst(CountryCodeKey), KeyConst(StateKey),
    KeyConst(DateReceivedKey), KeyConst(DecisionDateKey), KeyConst(DecisionCodeKey),
    Undefined("DECISION_DESCRIPTION_FIELD"),
    KeyConst(DeviceNameKey), KeyConst(KNumberKey)
  ]

  function Defined(keys: seq<string>): (r: seq<KeyExpr>)
    ensures |r| == |keys|
    ensures forall j :: 0 <= j < |keys| ==> r[j] == KeyConst(keys[j])
  {
    if |keys| == 0 then [] else [KeyConst(keys[0])] + Defined(keys[1..])
  }

  /**
   * The record of one item: key expressions are evaluated left to right, each
   * key followed by its lookup, and the first failure ends the evaluation.
   */
  function BuildRecord<V>(keys: seq<KeyExpr>, item: Item<V>): Result<Record<V>, ExtractError> {
    if |keys| == 0 then Ok([])
    else
      match keys[0]
      case Undefined(name) => Err(UnboundName(name))
      case KeyConst(k) =>
        if k !in item then Err(MissingKey(k))
        else Prepend([(k, item[k])], BuildRecord(keys[1..], item))
  }

  /** The records of all items, in order; the first item that fails fails the whole list. */
  function BuildRecords<V>(keys: seq<KeyExpr>, results: seq<Item<V>>): Result<seq<Record<V>>, ExtractError> {
    if |results| == 0 then Ok([])
    else
      match BuildRecord(keys, results[0])
      case Err(e) => Err(e)
      case Ok(record) => Prepend([record], BuildRecords(keys, results[1..]))
  }

  /** The extraction the orchestrator applies to a successful response. */
  function ExtractRecords<V>(response: Response<V>): Result<seq<Record<V>>, ExtractError> {
    match response.results
    case None => Err(MissingKey(ResultsKey))
    case Some(results) => BuildRecords(Defined(DeviceRecordKeys), results)
  }

  /** The extraction as the source is written, with the undefined name in its key list. */
  function ExtractRecordsAsWritten<V>(response: Response<V>): Result<seq<Record<V>>, ExtractError> {
    match response.results
    case None => Err(MissingKey(ResultsKey))
    case Some(results) => BuildRecords(RecordKeysAsWritten, results)
  }

  /** The loop of `extract_device_records_from_response`, appending one record per item. */
  method ExtractDeviceRecords<V>(response: Response<V>) returns (r: Result<seq<Record<V>>, ExtractError>)
    ensures r == ExtractRecords(response)
  {
    if response.results.None? {
      return Err(MissingKey(ResultsKey));
    }
    var results := response.results.value;
    var keys := Defined(DeviceRecordKeys);
    var records: seq<Record<V>> := [];
    var i := 0;
    assert results[i..] == results;
    PrependNothing(BuildRecords(keys, results));
    while i < |results|
      invariant 0 <= i <= |results|
      invariant BuildRecords(keys, results) == Prepend(records, BuildRecords(keys, results[i..]))
    {
      assert results[i..][1..] == results[i + 1..];
      var record := BuildRecord(keys, results[i]);
      if record.Err? {
        assert BuildRecords(keys, results[i..]) == Err(record.error);
        return Err(record.error);
      }
      PrependTwice(records, [record.value], BuildRecords(keys, results[i + 1..]));
      records := records + [record.value];
      i := i + 1;
    }
    assert results[i..] == [];
    assert BuildRecords(keys, results) == Ok(records + []);
    assert records + [] == records;
    r := Ok(records);
  }

  // -------------------------------------------------------------------------
  // What extraction promises

  /**
   * One item's record exists exactly when the item has every key, and then it
   * holds those keys in order with the item's values copied verbatim.
   */
  lemma {:induction false} BuildRecordDefined<V>(keys: seq<string>, item: Item<V>)
    ensures BuildRecord(Defined(keys), item).Ok? <==> forall j :: 0 <= j < |keys| ==> keys[j] in item
    ensures BuildRecord(Defined(keys), item).Ok? ==>
              var record := BuildRecord(Defined(keys), item).value;
              |record| == |keys| &&
              forall j :: 0 <= j < |keys| ==> record[j] == (keys[j], item[keys[j]])
    ensures BuildRecord(Defined(keys), item).Err? ==>
              exists j :: 0 <= j < |keys| && keys[j] !in item &&
                          BuildRecord(Defined(keys), item).error == MissingKey(keys[j])
    decreases |keys|
  {
    if |keys| > 0 {
      assert Defined(keys)[1..] == Defined(keys[1..]);
      BuildRecordDefined(keys[1..], item);
      var r := BuildRecord(Defined(keys), item);
      if keys[0] in item {
        if r.Err? {
          var j :| 0 <= j < |keys[1..]| && keys[1..][j] !in item &&
                   BuildRecord(Defined(keys[1..]), item).error == MissingKey(keys[1..][j]);
          assert keys[j + 1] !in item;
        } else {
          forall j | 0 <= j < |keys| ensures r.value[j] == (keys[j], item[keys[j]]) {
            if j > 0 { assert keys[j] == keys[1..][j - 1]; }
          }
        }
      }
    }
  }

  /**
   * Extraction succeeds exactly when every item has every key of the record;
   * then there is one record per item, in the same order, each holding the
   * fixed keys in order with values copied verbatim.
   */
  lemma {:induction false} BuildRecordsShape<V>(keys: seq<string>, results: seq<Item<V>>)
    ensures BuildRecords(Defined(keys), results).Ok? <==>
              forall i, j :: 0 <= i < |results| && 0 <= j < |keys| ==> keys[j] in results[i]
    ensures BuildRecords(Defined(keys), results).Ok? ==>
              var records := BuildRecords(Defined(keys), results).value;
              |records| == |results| &&
              forall i :: 0 <= i < |results| ==>
                |records[i]| == |keys| &&
                forall j :: 0 <= j < |keys| ==> records[i][j] == (keys[j], results[i][keys[j]])
    decreases |results|
  {
    if |results| > 0 {
      BuildRecordDefined(keys, results[0]);
      BuildRecordsShape(keys, results[1..]);
      var r := BuildRecords(Defined(keys), results);
      if !BuildRecord(Defined(keys), results[0]).Ok? {
        var j :| 0 <= j < |keys| && keys[j] !in results[0];
      } else if !BuildRecords(Defined(keys), results[1..]).Ok? {
        var i, j :| 0 <= i < |results[1..]| && 0 <= j < |keys| && keys[j] !in results[1..][i];
        assert keys[j] !in results[i + 1];
      } else {
        forall i | 1 <= i < |results|
          ensures |r.value[i]| == |keys|
          ensures forall j :: 0 <= j < |keys| ==> r.value[i][j] == (keys[j], results[i][keys[j]])
        {
          assert r.value[i] == BuildRecords(Defined(keys), results[1..]).value[i - 1];
          assert results[i] == results[1..][i - 1];
        }
      }
    }
  }

  /** A failed extraction names a record key that some item lacks: no item is skipped. */
  lemma {:induction false} BuildRecordsError<V>(keys: seq<string>, results: seq<Item<V>>)
    requires BuildRecords(Defined(keys), results).Err?
    ensures exists i, j :: 0 <= i < |results| && 0 <= j < |keys| && keys[j] !in results[i] &&
                           BuildRecords(Defined(keys), results).error == MissingKey(keys[j])
    decreases |results|
  {
    BuildRecordDefined(keys, results[0]);
    if BuildRecord(Defined(keys), results[0]).Ok? {
      BuildRecordsError(keys, results[1..]);
      var i, j :| 0 <= i < |results[1..]| && 0 <= j < |keys| && keys[j] !in results[1..][i] &&
                  BuildRecords(Defined(keys), results[1..]).error == MissingKey(keys[j]);
      assert keys[j] !in results[i + 1];
    }
  }

  /** The device record's fields: eleven distinct keys, in display order. */
  lemma DeviceRecordKeysDistinct()
    ensures |DeviceRecordKeys| == 11
    ensures forall a, b :: 0 <= a < b < 11 ==> DeviceRecordKeys[a] != DeviceRecordKeys[b]
  {
  }

  /**
   * As written, no item yields a record: evaluation stops at a missing key
   * among the eight before the undefined name, or at the undefined name.
   */
  lemma AsWrittenRecordFails<V>(item: Item<V>)
    ensures var r := BuildRecord(RecordKeysAsWritten, item);
            r.Err? &&
            (r.error == UnboundName("DECISION_DESCRIPTION_FIELD") ||
             exists j :: 0 <= j < 8 && r.error == MissingKey(DeviceRecordKeys[j]))
    ensures (forall j :: 0 <= j < |DeviceRecordKeys| ==> DeviceRecordKeys[j] in item) ==>
              BuildRecord(RecordKeysAsWritten, item) == Err(UnboundName("DECISION_DESCRIPTION_FIELD"))
  {
    var ks := RecordKeysAsWritten;
    assert ks[8..] == [Undefined("DECISION_DESCRIPTION_FIELD"), KeyConst(DeviceNameKey), KeyConst(KNumberKey)];
    assert BuildRecord(ks[8..], item) == Err(UnboundName("DECISION_DESCRIPTION_FIELD"));
    var k := 8;
    while k > 0
      invariant 0 <= k <= 8
      invariant var r := BuildRecord(ks[k..], item);
                r.Err? &&
                (r.error == UnboundName("DECISION_DESCRIPTION_FIELD") ||
                 exists j :: k <= j < 8 && r.error == MissingKey(DeviceRecordKeys[j]))
      invariant (forall j :: 0 <= j < |DeviceRecordKeys| ==> DeviceRecordKeys[j] in item) ==>
                BuildRecord(ks[k..], item) == Err(UnboundName("DECISION_DESCRIPTION_FIELD"))
    {
      k := k - 1;
      assert ks[k..][1..] == ks[k + 1..];
      assert ks[k] == KeyConst(DeviceRecordKeys[k]);
    }
    assert ks[0..] == ks;
  }

  /**
   * As written, extraction cannot succeed on a non-empty list: the first item
   * fails, which fails the whole list. An empty list gives no records.
   */
  lemma AsWrittenFailsOnAnyResult<V>(results: seq<Item<V>>)
    ensures |results| == 0 ==> BuildRecords(RecordKeysAsWritten, results) == Ok([])
    ensures |results| > 0 ==>
              var r := BuildRecords(RecordKeysAsWritten, results);
              r.Err? &&
              (r.error == UnboundName("DECISION_DESCRIPTION_FIELD") ||
               exists j :: 0 <= j < 8 && r.error == MissingKey(DeviceRecordKeys[j]))
    ensures |results| > 0 && (forall j :: 0 <= j < |DeviceRecordKeys| ==> DeviceRecordKeys[j] in results[0]) ==>
              BuildRecords(RecordKeysAsWritten, results) == Err(UnboundName("DECISION_DESCRIPTION_FIELD"))
  {
    if |results| > 0 {
      AsWrittenRecordFails(results[0]);
      assert BuildRecords(RecordKeysAsWritten, results) == Err(BuildRecord(RecordKeysAsWritten, results[0]).error);
    }
  }

  /** The corrected key list differs from the source's only in the undefined name. */
  lemma CorrectedKeysDifferOnlyAtDescription()
    ensures |RecordKeysAsWritten| == |DeviceRecordKeys|
    ensures forall j :: 0 <= j < |DeviceRecordKeys| && j != 8 ==>
              RecordKeysAsWritten[j] == Defined(DeviceRecordKeys)[j]
    ensures RecordKeysAsWritten[8] == Undefined("DECISION_DESCRIPTION_FIELD")
    ensures Defined(DeviceRecordKeys)[8] == KeyConst(DecisionDescriptionKey)
  {
  }
}
