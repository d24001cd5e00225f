/**
 * RNIBase: builds the put-mapping body that declares, for every public property of
 * a record class, the Elasticsearch field type to use, overriding the CLR types that
 * the RNI plugin handles (`String` becomes `rni_name`, `DateTime` becomes `rni_date`).
 * Reflection is replaced by an explicit `ClassShape`: the class name and its public
 * instance properties in the order reflection enumerates them.
 */
module RniBase {
  import opened Wrappers
  import opened JsonTree

  /** A public instance property: its name and the Name of its PropertyType. */
  datatype Property = Property(name: string, typeName: string)

  /** A class derived from RNIBase: its runtime name and its public instance properties. */
  datatype ClassShape = ClassShape(name: string, properties: seq<Property>)

  /** The fixed dictionary of RNI type overrides, keyed by CLR type name (ordinal comparison). */
  const RniTypes: map<string, string> := map["String" := "rni_name", "DateTime" := "rni_date"]

  /** The field type declared for a property of CLR type `propertyType`. */
  function RniType(propertyType: string): (r: string)
    ensures propertyType == "String" ==> r == "rni_name"
    ensures propertyType == "DateTime" ==> r == "rni_date"
    ensures propertyType != "String" && propertyType != "DateTime" ==> r == propertyType
  {
    if propertyType in RniTypes then RniTypes[propertyType] else propertyType
  }

  /** A type name is changed exactly when it is one of the two dictionary keys. */
  lemma RniTypeChangesOnlyKeys(propertyType: string)
    ensures RniType(propertyType) != propertyType <==> propertyType in RniTypes
  {
  }

  /** The lookup is exact and case-sensitive: other spellings, and other CLR names, pass through. */
  lemma RniTypeCaseSensitive()
    ensures RniType("string") == "string"
    ensures RniType("STRING") == "STRING"
    ensures RniType("Datetime") == "Datetime"
    ensures RniType("dateTime") == "dateTime"
    ensures RniType("Nullable`1") == "Nullable`1"
    ensures RniType("Int32") == "Int32"
  {
  }

  /** No override result is itself a key, so resolving a resolved type changes nothing. */
  lemma RniTypeIdempotent(propertyType: string)
    ensures RniType(propertyType) !in RniTypes || RniType(propertyType) == propertyType
    ensures RniType(RniType(propertyType)) == RniType(propertyType)
  {
  }

  /** `rni_name` is declared for `String` properties and for nothing else but `rni_name` itself. */
  lemma RniTypeResultNames(propertyType: string)
    ensures RniType(propertyType) == "rni_name" <==> propertyType == "String" || propertyType == "rni_name"
    ensures RniType(propertyType) == "rni_date" <==> propertyType == "DateTime" || propertyType == "rni_date"
  {
  }

  /** `{ "type": <RniType(typeName)> }` */
  function TypeObject(typeName: string): Json {
    JObject([("type", JString(RniType(typeName)))])
  }

  /** The LINQ `select`: one property entry per class property, in enumeration order. */
  function PropertyMembers(properties: seq<Property>): seq<Member> {
    seq(|properties|, i requires 0 <= i < |properties| => (properties[i].name, TypeObject(properties[i].typeName)))
  }

  predicate DistinctNames(properties: seq<Property>) {
    forall i, j :: 0 <= i < j < |properties| ==> properties[i].name != properties[j].name
  }

  /**
   * The mapping document `{ <class>: { "properties": { <prop>: { "type": <t> }, ... } } }`,
   * or the error the inner object raises when two properties share a name.
   */
  function MapToRniTypes(c: ClassShape): (r: Result<Json, JsonError>)
    ensures r.Ok? <==> DistinctNames(c.properties)
    ensures r.Err? ==>
      exists k :: 0 <= k < |c.properties| && r.error == DuplicateKey(c.properties[k].name)
        && DistinctNames(c.properties[..k])
        && exists j :: 0 <= j < k && c.properties[j].name == c.properties[k].name
  {
    var members := PropertyMembers(c.properties);
    assert forall i :: 0 <= i < |c.properties| ==> members[i].0 == c.properties[i].name;
    match NewObject(members)
    case Err(e) =>
      var k :| FirstDuplicate(members, k) && e == DuplicateKey(members[k].0);
      assert forall i :: 0 <= i < k ==> members[..k][i].0 == c.properties[i].name;
      Err(e)
    case Ok(properties) =>
      Ok(JObject([(c.name, JObject([("properties", properties)]))]))
  }

  /**
   * What a consumer of the document reads as the declared type of property `propertyName`
   * of type `className`: `doc[className]["properties"][propertyName]["type"]`.
   */
  function DeclaredType(doc: Json, className: string, propertyName: string): Option<string> {
    match Get(doc, className)
    case None => None
    case Some(body) =>
      match Get(body, "properties")
      case None => None
      case Some(props) =>
        match Get(props, propertyName)
        case None => None
        case Some(field) =>
          match Get(field, "type")
          case Some(JString(t)) => Some(t)
          case _ => None
  }

  /** Every property of the class is declared, under its own name, with its resolved type. */
  lemma MappingDeclaresEveryProperty(c: ClassShape, i: int)
    requires MapToRniTypes(c).Ok?
    requires 0 <= i < |c.properties|
    ensures DeclaredType(MapToRniTypes(c).value, c.name, c.properties[i].name)
         == Some(RniType(c.properties[i].typeName))
  {
    var members := PropertyMembers(c.properties);
    assert DistinctKeys(members) by {
      forall a, b | 0 <= a < b < |members| ensures members[a].0 != members[b].0 {
        assert members[a].0 == c.properties[a].name && members[b].0 == c.properties[b].name;
      }
    }
    FindAt(members, i);
  }

  /** Only the class's own name is a top-level key, and only its properties are declared. */
  lemma MappingDeclaresNothingElse(c: ClassShape, className: string, propertyName: string)
    requires MapToRniTypes(c).Ok?
    requires DeclaredType(MapToRniTypes(c).value, className, propertyName).Some?
    ensures className == c.name
    ensures exists i :: (0 <= i < |c.properties| && c.properties[i].name == propertyName
      && DeclaredType(MapToRniTypes(c).value, className, propertyName) == Some(RniType(c.properties[i].typeName)))
  {
    var members := PropertyMembers(c.properties);
    var doc := MapToRniTypes(c).value;
    assert doc == JObject([(c.name, JObject([("properties", JObject(members))]))]);
    assert Get(doc, className).Some?;
    GetSingle(c.name, doc.members[0].1, className);
    assert Get(Get(doc, className).value, "properties") == Some(JObject(members));
    FindSome(members, propertyName);
    var i :| 0 <= i < |members| && members[i] == (propertyName, Find(members, propertyName).value);
    assert c.properties[i].name == propertyName;
  }

  /** A class without public properties maps to an empty "properties" object, whatever its name. */
  lemma MappingOfEmptyClass(name: string)
    ensures MapToRniTypes(ClassShape(name, [])) == Ok(JObject([(name, JObject([("properties", JObject([]))]))]))
  {
  }

  /** Two public properties with one name (a property hidden with `new`): the object refuses the second. */
  lemma MappingOfHiddenProperty()
    ensures MapToRniTypes(ClassShape("Derived", [Property("Id", "Int32"), Property("Id", "String")]))
         == Err(DuplicateKey("Id"))
  {
  }

  /** The properties of a class with every type name replaced by the type declared for it. */
  function Resolved(properties: seq<Property>): seq<Property> {
    seq(|properties|, i requires 0 <= i < |properties| => Property(properties[i].name, RniType(properties[i].typeName)))
  }

  /** The declared type held in a `{ "type": <t> }` object. */
  function ReadTypeObject(j: Json): Option<string> {
    if j.JObject? && |j.members| == 1 && j.members[0].0 == "type" && j.members[0].1.JString?
    then Some(j.members[0].1.str)
    else None
  }

  function ReadProperties(members: seq<Member>): Option<seq<Property>> {
    if members == [] then Some([])
    else
      match (ReadTypeObject(members[0].1), ReadProperties(members[1..]))
      case (Some(t), Some(rest)) => Some([Property(members[0].0, t)] + rest)
      case _ => None
  }

  /** Reads a mapping document back into the class name and its declared (name, type) list. */
  function ReadMapping(doc: Json): Option<ClassShape> {
    if doc.JObject? && |doc.members| == 1 then
      var body := doc.members[0].1;
      if body.JObject? && |body.members| == 1 && body.members[0].0 == "properties" && body.members[0].1.JObject? then
        match ReadProperties(body.members[0].1.members)
        case Some(ps) => Some(ClassShape(doc.members[0].0, ps))
        case None => None
      else None
    else None
  }

  lemma {:induction false} ReadPropertyMembers(properties: seq<Property>)
    ensures ReadProperties(PropertyMembers(properties)) == Some(Resolved(properties))
  {
    var members := PropertyMembers(properties);
    if properties == [] {
      assert members == [];
    } else {
      assert members[0] == (properties[0].name, TypeObject(properties[0].typeName));
      assert ReadTypeObject(members[0].1) == Some(RniType(properties[0].typeName));
      assert members[1..] == PropertyMembers(properties[1..]);
      ReadPropertyMembers(properties[1..]);
      assert Resolved(properties) == [Property(properties[0].name, RniType(properties[0].typeName))] + Resolved(properties[1..]);
    }
  }

  /**
   * The document holds exactly the class name and, in enumeration order, every property
   * with its resolved type: reading it back gives the class with its types resolved.
   */
  lemma MappingReadsBack(c: ClassShape)
    requires MapToRniTypes(c).Ok?
    ensures ReadMapping(MapToRniTypes(c).value) == Some(ClassShape(c.name, Resolved(c.properties)))
  {
    ReadPropertyMembers(c.properties);
  }

  /** Mapping a class whose types are already resolved gives the same document again. */
  lemma MappingOfResolvedClass(c: ClassShape)
    ensures MapToRniTypes(ClassShape(c.name, Resolved(c.properties))) == MapToRniTypes(c)
  {
    var ps, rs := c.properties, Resolved(c.properties);
    forall i | 0 <= i < |ps| ensures TypeObject(rs[i].typeName) == TypeObject(ps[i].typeName) {
      RniTypeIdempotent(ps[i].typeName);
    }
    assert PropertyMembers(rs) == PropertyMembers(ps);
    assert DistinctNames(rs) == DistinctNames(ps) by {
      assert forall i :: 0 <= i < |ps| ==> rs[i].name == ps[i].name;
    }
  }
}
