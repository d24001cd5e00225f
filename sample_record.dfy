/**
 * The sample `Record` class of the test program and the mapping it registers for it:
 * `IndicesPutMapping<Record>(indexName, "Record", sampleRecord.MapToRNITypes())`.
 */
module SampleRecord {
  import opened Wrappers
  import opened JsonTree
  import opened RniBase

  /** `Record : RNIBase` with its four public properties, in declaration order. */
  const Record := ClassShape("Record", [
    Property("Id", "String"),
    Property("FullName", "String"),
    Property("LocalName", "String"),
    Property("DateOfBirth", "DateTime")
  ])

  /** The type name passed to the put-mapping call beside the document. */
  const PutMappingTypeName := "Record"

  function RniField(t: string): Json {
    JObject([("type", JString(t))])
  }

  /** The three string properties become `rni_name` fields and the birth date an `rni_date` field. */
  lemma RecordMapping()
    ensures MapToRniTypes(Record) == Ok(JObject([("Record", JObject([("properties", JObject([
      ("Id", RniField("rni_name")),
      ("FullName", RniField("rni_name")),
      ("LocalName", RniField("rni_name")),
      ("DateOfBirth", RniField("rni_date"))
    ]))]))]))
  {
    var ps := Record.properties;
    assert DistinctNames(ps) by {
      assert ps[0].name == "Id" && ps[1].name == "FullName";
      assert ps[2].name == "LocalName" && ps[3].name == "DateOfBirth";
    }
    assert PropertyMembers(ps) == [
      ("Id", RniField("rni_name")),
      ("FullName", RniField("rni_name")),
      ("LocalName", RniField("rni_name")),
      ("DateOfBirth", RniField("rni_date"))
    ];
  }

  /** The document's only top-level key is the type name the mapping is registered under. */
  lemma RecordMappingMatchesPutMappingType()
    ensures MapToRniTypes(Record).Ok?
    ensures ReadMapping(MapToRniTypes(Record).value).Some?
    ensures ReadMapping(MapToRniTypes(Record).value).value.name == PutMappingTypeName
  {
    RecordMapping();
    MappingReadsBack(Record);
  }
}
