/** The loosely typed JSON objects the library passes around (its `IGenericFormat`). */
module Documents {

  /** A field value. Fields holding nested objects or arrays are not represented: nothing
      in the modelled logic looks inside them. */
  datatype Value = Str(s: string) | Num(n: int) | Bool(b: bool) | Null

  /** A document: its fields by name. */
  type Document = map<string, Value>
}
