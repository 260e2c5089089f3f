/**
 * The recognition client: the declared response schema, the normalisation
 * of the parsed response with JavaScript `||`, and the mapping of every
 * failure of the call, of `trim` or of `JSON.parse` to one error.
 * The SDK call itself is an input (`CallOutcome`), and so is `JSON.parse`.
 */
module GeminiService {
  import opened Common
  import opened JsString

  /** The values `JSON.parse` can produce, plus `undefined` for a missing
      property. Numbers are integers here. */
  datatype Json =
    | JUndef
    | JNull
    | JBool(b: bool)
    | JNum(n: int)
    | JStr(s: string)
    | JArr(items: seq<Json>)
    | JObj(fields: map<string, Json>)

  /** JavaScript truthiness. */
  predicate Truthy(v: Json)
    ensures !Truthy(v) <==> v in {JUndef, JNull, JBool(false), JNum(0), JStr("")}
  {
    match v
    case JUndef => false
    case JNull => false
    case JBool(b) => b
    case JNum(n) => n != 0
    case JStr(s) => s != ""
    case JArr(_) => true
    case JObj(_) => true
  }

  /** `v || fallback`. */
  function Or(v: Json, fallback: Json): (r: Json)
    ensures r == v || r == fallback
    ensures Truthy(r) <==> Truthy(v) || Truthy(fallback)
    ensures Truthy(v) ==> r == v
    ensures !Truthy(v) ==> r == fallback
  {
    if Truthy(v) then v else fallback
  }

  /** `v[key]` for a `v` that is neither null nor undefined. */
  function Property(v: Json, key: string): (r: Json)
    ensures v.JObj? && key in v.fields ==> r == v.fields[key]
    ensures !(v.JObj? && key in v.fields) ==> r == JUndef
  {
    match v
    case JObj(m) => if key in m then m[key] else JUndef
    case _ => JUndef
  }

  /** The object the client returns. Its fields are whatever `||` produced:
      nothing checks their types. */
  datatype RecognitionResult = RecognitionResult(plateNumber: Json, found: Json)

  const FailureMessage: string := "Failed to recognize number plate via Gemini API."

  /** `{ plateNumber: parsed.plateNumber || "", found: parsed.found || false }`;
      `None` when the property access throws (parsed is null). */
  function Normalize(parsed: Json): (r: Option<RecognitionResult>)
    ensures r.None? <==> parsed == JNull || parsed == JUndef
    ensures r.Some? ==>
      && (r.value.plateNumber == Property(parsed, "plateNumber") || r.value.plateNumber == JStr(""))
      && (r.value.found == Property(parsed, "found") || r.value.found == JBool(false))
      && (Truthy(r.value.plateNumber) ==> r.value.plateNumber == Property(parsed, "plateNumber"))
      && (Truthy(Property(parsed, "plateNumber")) ==> r.value.plateNumber == Property(parsed, "plateNumber"))
      && (Truthy(r.value.found) <==> Truthy(Property(parsed, "found")))
      && (!Truthy(Property(parsed, "plateNumber")) ==> r.value.plateNumber == JStr(""))
      && (!Truthy(Property(parsed, "found")) ==> r.value.found == JBool(false))
  {
    if parsed == JNull || parsed == JUndef then None
    else Some(RecognitionResult(
      Or(Property(parsed, "plateNumber"), JStr("")),
      Or(Property(parsed, "found"), JBool(false))))
  }

  /** The outcome of the SDK call: it rejected (network, status, quota, key),
      or it answered with a response whose `text` may be undefined. */
  datatype CallOutcome = CallRejected | Responded(text: Option<string>)

  /** `recognizeNumberPlate`, with the SDK call and `JSON.parse` given:
      `parse` returns `None` when `JSON.parse` throws. */
  function RecognizeNumberPlate(call: CallOutcome, parse: string -> Option<Json>): (r: Result<RecognitionResult, string>)
    ensures r.Failure? ==> r.error == FailureMessage
    ensures call.CallRejected? || call.text.None? ==> r.Failure?
    ensures r.Success? ==>
      && call.Responded? && call.text.Some?
      && parse(Trim(call.text.value)).Some?
      && Normalize(parse(Trim(call.text.value)).value) == Some(r.value)
    ensures call.Responded? && call.text.Some? && parse(Trim(call.text.value)).Some?
            && Normalize(parse(Trim(call.text.value)).value).Some? ==>
      r == Success(Normalize(parse(Trim(call.text.value)).value).value)
  {
    match call
    case CallRejected => Failure(FailureMessage)
    case Responded(None) => Failure(FailureMessage)
    case Responded(Some(text)) =>
      match parse(Trim(text))
      case None => Failure(FailureMessage)
      case Some(parsed) =>
        match Normalize(parsed)
        case None => Failure(FailureMessage)
        case Some(result) => Success(result)
  }

  // ---------------------------------------------------------------------
  // the response schema
  // ---------------------------------------------------------------------

  datatype SchemaType = SObject | SString | SBoolean

  /** A response schema: its type, its properties' types, its required list. */
  datatype Schema = Schema(kind: SchemaType, properties: map<string, SchemaType>, required: seq<string>)

  /** The schema sent with every request (field descriptions omitted). */
  const PlateRecognitionSchema: Schema :=
    Schema(SObject, map["plateNumber" := SString, "found" := SBoolean], ["plateNumber", "found"])

  predicate HasType(v: Json, t: SchemaType)
  {
    match t
    case SObject => v.JObj?
    case SString => v.JStr?
    case SBoolean => v.JBool?
  }

  /** A parsed response that honours a schema: an object holding every
      required property with its declared type. */
  predicate Conforms(v: Json, sc: Schema)
  {
    && HasType(v, sc.kind)
    && v.JObj?
    && forall k :: k in sc.required ==>
         k in v.fields && k in sc.properties && HasType(v.fields[k], sc.properties[k])
  }

  /** The schema requires exactly its two declared properties. */
  lemma SchemaRequiresExactlyItsProperties()
    ensures PlateRecognitionSchema.kind == SObject
    ensures |PlateRecognitionSchema.required| == 2
    ensures (set k | k in PlateRecognitionSchema.required) == PlateRecognitionSchema.properties.Keys
    ensures PlateRecognitionSchema.properties.Keys == {"plateNumber", "found"}
  {
    var sc := PlateRecognitionSchema;
    assert forall k :: k in sc.required <==> k == "plateNumber" || k == "found";
  }

  // ---------------------------------------------------------------------
  // properties of the normalisation
  // ---------------------------------------------------------------------

  /** A non-empty string plate number is returned unchanged. */
  lemma PlateStringKept(parsed: Json, s: string)
    requires parsed.JObj? && "plateNumber" in parsed.fields && parsed.fields["plateNumber"] == JStr(s)
    requires s != ""
    ensures Normalize(parsed).Some? && Normalize(parsed).value.plateNumber == JStr(s)
  {
  }

  /** An absent, null or empty plate number becomes the empty string. */
  lemma PlateFalsyBecomesEmpty(parsed: Json)
    requires parsed != JNull && parsed != JUndef
    requires Property(parsed, "plateNumber") in {JUndef, JNull, JStr("")}
    ensures Normalize(parsed).Some? && Normalize(parsed).value.plateNumber == JStr("")
  {
  }

  /** `found: true` stays true; absent, null or false becomes false. */
  lemma FoundBecomesBoolean(parsed: Json)
    requires parsed != JNull && parsed != JUndef
    requires Property(parsed, "found") in {JUndef, JNull, JBool(false), JBool(true)}
    ensures Normalize(parsed).Some?
    ensures Normalize(parsed).value.found == JBool(Property(parsed, "found") == JBool(true))
  {
  }

  /** Only falsy values are replaced: a truthy value of any type, even the
      wrong one, passes through, and a falsy one of any type is replaced. */
  lemma OnlyFalsyReplaced(parsed: Json)
    requires parsed != JNull && parsed != JUndef
    ensures var r := Normalize(parsed).value;
      && (Truthy(Property(parsed, "plateNumber")) ==> r.plateNumber == Property(parsed, "plateNumber"))
      && (!Truthy(Property(parsed, "plateNumber")) ==> r.plateNumber == JStr(""))
      && (Truthy(Property(parsed, "found")) ==> r.found == Property(parsed, "found"))
      && (!Truthy(Property(parsed, "found")) ==> r.found == JBool(false))
  {
  }

  /** A plate number of the wrong type, e.g. a number, is not caught. */
  lemma WrongTypePassesThrough()
    ensures Normalize(JObj(map["plateNumber" := JNum(7), "found" := JStr("yes")]))
         == Some(RecognitionResult(JNum(7), JStr("yes")))
  {
  }

  /** `found: false` does not blank a stray plate number. */
  lemma NotFoundKeepsPlate()
    ensures Normalize(JObj(map["plateNumber" := JStr("AB12"), "found" := JBool(false)]))
         == Some(RecognitionResult(JStr("AB12"), JBool(false)))
  {
  }

  /** The result as the object it is when parsed again. */
  function AsJson(r: RecognitionResult): Json
  {
    JObj(map["plateNumber" := r.plateNumber, "found" := r.found])
  }

  /** Normalising a normalised result changes nothing. */
  lemma NormalizeIdempotent(parsed: Json)
    requires parsed != JNull && parsed != JUndef
    ensures Normalize(AsJson(Normalize(parsed).value)) == Normalize(parsed)
  {
  }

  /** A response that honours the schema comes back exactly as sent:
      a string plate number and a boolean found flag. */
  lemma ConformingResponseUnchanged(parsed: Json)
    requires Conforms(parsed, PlateRecognitionSchema)
    ensures Normalize(parsed) == Some(RecognitionResult(parsed.fields["plateNumber"], parsed.fields["found"]))
    ensures Normalize(parsed).value.plateNumber.JStr? && Normalize(parsed).value.found.JBool?
  {
    assert "plateNumber" in PlateRecognitionSchema.required;
    assert "found" in PlateRecognitionSchema.required;
  }

  /** Whitespace around the response text does not change the outcome. */
  lemma ResponseWhitespaceIgnored(w1: string, text: string, w2: string, parse: string -> Option<Json>)
    requires AllWhitespace(w1) && AllWhitespace(w2)
    ensures RecognizeNumberPlate(Responded(Some(w1 + text + w2)), parse)
         == RecognizeNumberPlate(Responded(Some(text)), parse)
  {
    TrimIgnoresSurroundingWhitespace(w1, text, w2);
  }

  /** Every failure, whatever its cause, is the same single error. */
  lemma FailuresAreIndistinguishable(c1: CallOutcome, p1: string -> Option<Json>, c2: CallOutcome, p2: string -> Option<Json>)
    requires RecognizeNumberPlate(c1, p1).Failure? && RecognizeNumberPlate(c2, p2).Failure?
    ensures RecognizeNumberPlate(c1, p1) == RecognizeNumberPlate(c2, p2)
  {
  }
}
