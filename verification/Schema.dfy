/** Schema properties, JSON payloads, and the data that travels between them and Redis. */
module Schema {
  import opened Basics

  /** A decoded JSON value. */
  datatype Json =
    | JNull
    | JBool(b: bool)
    | JNum(n: real)
    | JStr(s: string)
    | JArr(items: seq<Json>)
    | JObj(fields: map<string, Json>)

  datatype SimpleKind = Enum | String | Integer | Bool

  /** The members of a resource or of an object property. */
  datatype Schema = Schema(props: map<string, Property>)

  datatype Property = Property(nullAllowed: bool, readOnly: bool, typ: Type)

  /** An auto-expanded link stands for an embedded collection: `arrayOf` is the element
      property it kept from its days as an array, `members` the schema of the linked
      collection's member resource. */
  datatype Expansion = Expansion(arrayOf: Property, members: Schema)

  datatype Type =
    | Simple(kind: SimpleKind)
    | Object(schema: Schema)
    | Array(arrayOf: Property)
    | Link(isNav: bool, expand: Option<Expansion>)
    | Action
    | Unknown

  /** The schema of an embedded collection itself. */
  const NO_PROPERTIES: Schema := Schema(map[])

  /** The intermediate data of `Interface2Redis`: what `RedisInsert` and `RedisPatch` take. */
  datatype Inter =
    | INil
    | IStr(text: string)
    | IArr(isObject: bool, elements: seq<Inter>)
    | IObj(fields: map<string, Inter>)

  const ODATA_ID := "@odata.id"
  const ODATA_TYPE := "@odata.type"
  const ODATA_CONTEXT := "@odata.context"
  const ODATA_COUNT := "@odata.count"

  /** A plain text property. */
  const TEXT := Property(true, false, Simple(String))
}
