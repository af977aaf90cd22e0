/** The decoded JSON documents the scraper reads, and the ways a Python
    subscript on them can fail. */
module Documents {
  import opened Wrappers

  /** A value as `json.loads` yields it. Numbers are integers: every numeric
      attribute the records hold is annotated `int`. */
  datatype Json =
    | Null
    | Bool(b: bool)
    | Num(n: int)
    | Str(s: string)
    | Arr(items: seq<Json>)
    | Obj(fields: map<string, Json>)

  /** Why building or filling a match record fails. Python raises these
      implicitly (KeyError, TypeError, IndexError, ValueError). */
  datatype Error =
    | MissingKey(key: string)          // d[key] on a dict without key
    | NotAnObject(key: string)         // d[key] on something that is not a dict
    | NotAList(index: nat)             // d[index] on something that is not a list
    | IndexOutOfRange(index: nat)      // d[index] past the end of a list
    | WrongType(key: string)           // d[key] holds a value of the wrong JSON type
    | BadKickoff(text: string)         // the kickoff label does not parse
    | MissingTeamStats(teamKey: string) // a team id absent from the statistics map
    | NoSummary                        // no summary text to take the referee from

  /** Whether `doc` is an object holding `key`. */
  predicate Has(doc: Json, key: string)
  {
    doc.Obj? && key in doc.fields
  }

  /** The value under `key`, or `Null` where there is none; for stating
      where a record's attributes come from. */
  function Sub(doc: Json, key: string): Json
  {
    if Has(doc, key) then doc.fields[key] else Null
  }

  /** `doc[key]`. */
  function Member(doc: Json, key: string): (r: Result<Json, Error>)
    ensures r.Ok? <==> Has(doc, key)
    ensures r.Ok? ==> r.value == Sub(doc, key)
  {
    if !doc.Obj? then Err(NotAnObject(key))
    else if key !in doc.fields then Err(MissingKey(key))
    else Ok(doc.fields[key])
  }

  /** `doc[key]` where the value is annotated `int`. */
  function IntMember(doc: Json, key: string): (r: Result<int, Error>)
    ensures r.Ok? <==> Sub(doc, key).Num?
    ensures r.Ok? ==> r.value == Sub(doc, key).n
  {
    var v :- Member(doc, key);
    if v.Num? then Ok(v.n) else Err(WrongType(key))
  }

  /** `doc[key]` where the value is annotated `str`. */
  function StrMember(doc: Json, key: string): (r: Result<string, Error>)
    ensures r.Ok? <==> Sub(doc, key).Str?
    ensures r.Ok? ==> r.value == Sub(doc, key).s
  {
    var v :- Member(doc, key);
    if v.Str? then Ok(v.s) else Err(WrongType(key))
  }

  /** `doc[index]` for a non-negative list index. */
  function Element(doc: Json, index: nat): (r: Result<Json, Error>)
    ensures r.Ok? <==> doc.Arr? && index < |doc.items|
    ensures r.Ok? ==> r.value == doc.items[index]
  {
    if !doc.Arr? then Err(NotAList(index))
    else if index >= |doc.items| then Err(IndexOutOfRange(index))
    else Ok(doc.items[index])
  }
}
