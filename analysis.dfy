/**
 * `parseAnalysis` and the completeness gate of `analyzeImage` (src/App.jsx):
 * the model's raw answer is cleaned of code fences and backslashes, decoded with
 * `JSON.parse`, and turned into a fixed five-field record by truthiness defaults;
 * any exception yields a fixed parse-error record instead.
 */
module Analysis {
  import opened Wrappers
  import opened JsText
  import opened Json
  import opened Unescape
  import opened Cleanup

  /** The parsed receipt: the object literal `parseAnalysis` returns. */
  datatype Analysis = Analysis(
    tipoSpesa: JsonValue,
    importo: real,
    descrizione: JsonValue,
    azienda: JsonValue,
    dataSpesa: JsonValue)

  /** The record returned from the `catch` branch. */
  function ParseErrorRecord(): Analysis {
    Analysis(JString("Generico"), 0.0, JString("Errore nel parsing dei dati"),
             JString("Azienda non disponibile"), JNull)
  }

  /** What a decoded value that carries none of the five keys yields. */
  function EmptyRecord(): Analysis {
    Analysis(JString("Generico"), 0.0, JString("Descrizione non disponibile"),
             JString("Azienda non disponibile"), JNull)
  }

  /** What `JSON.parse` returns on the cleaned text; None when it throws. */
  function Decoded(rt: JsRuntime, text: string): Option<JsonValue> {
    rt.parse(Clean(text))
  }

  /** `parsedData.key` for a decode that succeeded with a non-null value; None otherwise. */
  function Field(rt: JsRuntime, text: string, key: string): Option<JsonValue> {
    match Decoded(rt, text)
    case Some(v) => if v == JNull then None else Get(v, key)
    case None => None
  }

  /**
   * The `try` branch after a successful decode to a non-null value; None when building
   * the record throws, which only `join` on the description can do.
   */
  function FromDecoded(rt: JsRuntime, v: JsonValue): Option<Analysis>
    requires v != JNull
  {
    var tipo := Get(v, "tipoSpesa");
    var importo := Get(v, "importo");
    var descr := Get(v, "descrizione");
    var azienda := Get(v, "azienda");
    var data := Get(v, "dataSpesa");
    var joined := if descr.Some? && descr.value.JArray? then JoinValues(rt, descr.value.items, ", ") else Some("");
    if joined.None? then None
    else Some(Analysis(
      if FieldTruthy(tipo) then tipo.value else JString("Generico"),
      if importo.Some? && importo.value.JNumber? then importo.value.n else 0.0,
      if descr.Some? && descr.value.JArray? then JString(joined.value)
      else if FieldTruthy(descr) then descr.value
      else JString("Descrizione non disponibile"),
      if FieldTruthy(azienda) then azienda.value else JString("Azienda non disponibile"),
      if FieldTruthy(data) then data.value else JNull))
  }

  /** The decoded description is a list, and joining it throws. */
  predicate DescriptionThrows(rt: JsRuntime, text: string) {
    var d := Field(rt, text, "descrizione");
    d.Some? && d.value.JArray? && JoinValues(rt, d.value.items, ", ").None?
  }

  /**
   * `parseAnalysis(analysis)`: total, never throws. A failed decode, a decoded `null`
   * (whose property access throws) and a description whose `join` throws all give
   * the parse-error record.
   */
  function ParseAnalysis(rt: JsRuntime, text: string): (r: Analysis)
    ensures Truthy(r.tipoSpesa) && Truthy(r.azienda)
    ensures r.dataSpesa == JNull || Truthy(r.dataSpesa)
    ensures Decoded(rt, text) == None || Decoded(rt, text) == Some(JNull) ==> r == ParseErrorRecord()
    ensures DescriptionThrows(rt, text) ==> r == ParseErrorRecord()
    ensures r.importo != 0.0 ==> Field(rt, text, "importo") == Some(JNumber(r.importo))
  {
    match Decoded(rt, text)
    case None => ParseErrorRecord()
    case Some(v) =>
      if v == JNull then ParseErrorRecord()
      else match FromDecoded(rt, v)
        case None => ParseErrorRecord()
        case Some(r) => r
  }

  /** The check before `saveExpense`: `tipoSpesa`, `importo` and `azienda` must all be truthy. */
  predicate IsComplete(r: Analysis) {
    Truthy(r.tipoSpesa) && r.importo != 0.0 && Truthy(r.azienda)
  }

  // ---------------------------------------------------------------------------
  // Field defaults

  /**
   * `importo` is the decoded value when that is a JSON number, and 0 otherwise; a
   * description whose `join` throws discards it.
   */
  lemma ImportoDefault(rt: JsRuntime, text: string)
    ensures var f := Field(rt, text, "importo");
      ParseAnalysis(rt, text).importo ==
        if f.Some? && f.value.JNumber? && !DescriptionThrows(rt, text) then f.value.n else 0.0
  {
  }

  /**
   * `tipoSpesa`, `azienda` and `dataSpesa` keep a truthy decoded value and fall back to
   * their defaults, unless the description's `join` throws.
   */
  lemma TruthyDefaults(rt: JsRuntime, text: string)
    requires !DescriptionThrows(rt, text)
    ensures var r := ParseAnalysis(rt, text);
      var t := Field(rt, text, "tipoSpesa");
      var a := Field(rt, text, "azienda");
      var d := Field(rt, text, "dataSpesa");
      (r.tipoSpesa == if FieldTruthy(t) then t.value else JString("Generico")) &&
      (r.azienda == if FieldTruthy(a) then a.value else JString("Azienda non disponibile")) &&
      (r.dataSpesa == if FieldTruthy(d) then d.value else JNull)
  {
  }

  /**
   * `descrizione`: a list is joined with ", " (or, when that throws, the whole record is
   * the parse-error record), another truthy value is kept, and the rest becomes
   * 'Descrizione non disponibile' once the decode succeeded.
   */
  lemma DescrizioneDefault(rt: JsRuntime, text: string)
    requires Decoded(rt, text).Some? && Decoded(rt, text).value != JNull
    ensures var r := ParseAnalysis(rt, text);
      var d := Field(rt, text, "descrizione");
      if d.Some? && d.value.JArray? then
        match JoinValues(rt, d.value.items, ", ")
        case None => r == ParseErrorRecord()
        case Some(joined) => r.descrizione == JString(joined)
      else if FieldTruthy(d) then r.descrizione == d.value
      else r.descrizione == JString("Descrizione non disponibile")
  {
  }

  /**
   * A list description holding an object with its own "toString" member, such as
   * `{"tipoSpesa":"x","importo":5,"azienda":"y","descrizione":[{"toString":1}]}`,
   * gives the parse-error record, which the gate refuses.
   */
  lemma OwnToStringDescriptionRefused(rt: JsRuntime, text: string, items: seq<JsonValue>, i: nat)
    requires Field(rt, text, "descrizione") == Some(JArray(items))
    requires i < |items| && items[i].JObject? && "toString" in items[i].fields
    ensures ParseAnalysis(rt, text) == ParseErrorRecord()
    ensures !IsComplete(ParseAnalysis(rt, text))
  {
    OwnToStringThrows(rt, items, ", ", i);
    ParseErrorIncomplete();
  }

  /** The receipt example: ["Bread", "Milk"] is shown as "Bread, Milk". */
  lemma DescriptionListJoined(rt: JsRuntime, text: string, fields: map<string, JsonValue>)
    requires Decoded(rt, text) == Some(JObject(fields))
    requires "descrizione" in fields && fields["descrizione"] == JArray([JString("Bread"), JString("Milk")])
    ensures ParseAnalysis(rt, text).descrizione == JString("Bread, Milk")
  {
    var items := [JString("Bread"), JString("Milk")];
    JoinStrings(rt, items, ", ", ["Bread", "Milk"]);
    assert Join(["Bread", "Milk"], ", ") == "Bread" + ", " + Join(["Milk"], ", ");
    DescrizioneDefault(rt, text);
  }

  /**
   * A decode to a number, string, boolean or array carries none of the keys, so the
   * result is the "valid but empty" record, distinguishable from the parse-error record.
   */
  lemma NonObjectGivesEmptyRecord(rt: JsRuntime, text: string)
    requires Decoded(rt, text).Some?
    requires Decoded(rt, text).value != JNull && !Decoded(rt, text).value.JObject?
    ensures ParseAnalysis(rt, text) == EmptyRecord()
    ensures ParseAnalysis(rt, text) != ParseErrorRecord()
  {
  }

  // ---------------------------------------------------------------------------
  // Completeness gate

  /**
   * Because `tipoSpesa` and `azienda` are always defaulted to truthy values, the gate
   * passes exactly when the decoded `importo` is a non-zero JSON number and the
   * description's `join` does not throw.
   */
  lemma CompleteIffNonZeroAmount(rt: JsRuntime, text: string)
    ensures IsComplete(ParseAnalysis(rt, text)) <==>
      !DescriptionThrows(rt, text) && exists n :: n != 0.0 && Field(rt, text, "importo") == Some(JNumber(n))
  {
    var r := ParseAnalysis(rt, text);
    ParseErrorIncomplete();
    if r.importo != 0.0 {
      assert Field(rt, text, "importo") == Some(JNumber(r.importo));
    }
    ImportoDefault(rt, text);
  }

  /** The parse-error record never passes the gate. */
  lemma ParseErrorIncomplete()
    ensures !IsComplete(ParseErrorRecord())
    ensures !IsComplete(EmptyRecord())
  {
  }

  lemma SameDecodeSameRecord(rt: JsRuntime, a: string, b: string)
    requires Decoded(rt, a) == Decoded(rt, b)
    ensures ParseAnalysis(rt, a) == ParseAnalysis(rt, b)
  {
  }

  /**
   * Wrapping a payload without "```" as "```json\n" + p + "\n```" decodes to the same
   * value as p itself, as long as the whitespace around p is JSON whitespace and the
   * decoder ignores such whitespace.
   */
  lemma FencedParsesAlike(rt: JsRuntime, lead: string, core: string, trail: string)
    requires IgnoresSurroundingSpace(rt.parse)
    requires AllJsonSpace(lead) && AllJsonSpace(trail)
    requires core == [] || (!IsSpace(core[0]) && !IsSpace(core[|core| - 1]))
    requires !ContainsFence(lead + core + trail)
    ensures Decoded(rt, Fenced(lead + core + trail)) == Decoded(rt, lead + core + trail)
    ensures ParseAnalysis(rt, Fenced(lead + core + trail)) == ParseAnalysis(rt, lead + core + trail)
  {
    var p := lead + core + trail;
    JsonSpaceIsSpace(lead);
    JsonSpaceIsSpace(trail);
    CleanFenced(p);
    TrimSurrounded(lead, core, trail);
    CleanSurrounded(lead, core, trail);
    var c := RemoveBackslashes(core);
    assert rt.parse(lead + c + trail) == rt.parse(lead + c);
    assert rt.parse(lead + c) == rt.parse(c);
    SameDecodeSameRecord(rt, Fenced(p), p);
  }

  /**
   * Leftmost alternation: whitespace before the opening fence lets `\s*```` consume it
   * together with the backticks, leaving "json..." behind, which no JSON text starts with.
   * Such an answer always yields the parse-error record.
   */
  lemma IndentedFenceIsParseError(rt: JsRuntime, w: string, p: string)
    requires RejectsBadStart(rt.parse)
    requires w != [] && AllSpace(w)
    ensures Decoded(rt, w + Fenced(p)) == None
    ensures ParseAnalysis(rt, w + Fenced(p)) == ParseErrorRecord()
  {
    assert Fenced(p) == OpenFence + ("\n" + p + Closing);
    IndentedOpenFenceIsParseError(rt, w, "\n" + p + Closing);
  }

  lemma RejectedStart(rt: JsRuntime, c: string)
    requires RejectsBadStart(rt.parse)
    requires c != [] && c[0] == 'j'
    ensures rt.parse(c) == None
  {
    assert !CanStartJsonText(c[0]);
  }

  /**
   * The general form: whatever follows, an answer that starts with whitespace and then
   * "```json" cleans to text starting with "json", which never decodes.
   */
  lemma IndentedOpenFenceIsParseError(rt: JsRuntime, w: string, rest: string)
    requires RejectsBadStart(rt.parse)
    requires w != [] && AllSpace(w)
    ensures Decoded(rt, w + (OpenFence + rest)) == None
    ensures ParseAnalysis(rt, w + (OpenFence + rest)) == ParseErrorRecord()
  {
    IndentedOpenFenceCleansToJson(w, rest);
    RejectedStart(rt, Clean(w + (OpenFence + rest)));
  }

  /**
   * The whitespace condition of FencedParsesAlike cannot be dropped: U+00A0 is removed
   * by `trim()` but is not JSON whitespace, so with a decoder that accepts "{}" the
   * fenced answer decodes while the bare payload does not.
   */
  lemma NoBreakSpaceMarginDecodesDifferently(rt: JsRuntime)
    requires RejectsBadStart(rt.parse)
    ensures Decoded(rt, Fenced("\U{00A0}{}")) == rt.parse("{}")
    ensures Decoded(rt, "\U{00A0}{}") == None
  {
    NoBreakSpaceCleaning();
    NoBreakSpaceRejected(rt);
  }

  lemma NoBreakSpaceRejected(rt: JsRuntime)
    requires RejectsBadStart(rt.parse)
    ensures rt.parse("\U{00A0}{}") == None
  {
    var p := "\U{00A0}{}";
    assert p != [] && !CanStartJsonText(p[0]);
  }

  lemma NoBreakSpaceCleaning()
    ensures Clean(Fenced("\U{00A0}{}")) == "{}"
    ensures Clean("\U{00A0}{}") == "\U{00A0}{}"
  {
    var p := "\U{00A0}{}";
    NoBreakSpaceNoFence();
    NoBreakSpaceTrimmed();
    CleanFenced(p);
    CleanWithoutFence(p);
    RemoveBackslashesLiteral();
  }

  lemma NoBreakSpaceNoFence()
    ensures !ContainsFence("\U{00A0}{}")
  {
    NoFenceAfterPlain("\U{00A0}{}", []);
    assert "\U{00A0}{}" + [] == "\U{00A0}{}";
  }

  lemma NoBreakSpaceTrimmed()
    ensures Trim("\U{00A0}{}") == "{}"
  {
    assert "\U{00A0}{}" == "\U{00A0}" + "{}" + "";
    TrimSurrounded("\U{00A0}", "{}", "");
  }

  lemma RemoveBackslashesLiteral()
    ensures RemoveBackslashes("{}") == "{}"
    ensures RemoveBackslashes("\U{00A0}{}") == "\U{00A0}{}"
  {
    assert RemoveBackslashes("}") == "}" by { assert "}"[1..] == []; }
    assert RemoveBackslashes("{}") == "{}" by { assert "{}"[1..] == "}"; }
    assert "\U{00A0}{}"[1..] == "{}";
  }

  /**
   * The fence-free condition of FencedParsesAlike cannot be dropped either: inside the
   * wrapper an indented "```json" is removed by the first alternative, while on its own
   * the second alternative takes the blank and the backticks and leaves "json" behind.
   */
  lemma NestedFenceDecodesDifferently(rt: JsRuntime)
    requires RejectsBadStart(rt.parse)
    ensures Decoded(rt, Fenced(" " + (OpenFence + "{}"))) == rt.parse("{}")
    ensures Decoded(rt, " " + (OpenFence + "{}")) == None
  {
    var rest := "{}";
    BracesStrip();
    FencedIndentedFence(" ", rest);
    OpenFenceThenClosing(rest);
    RemoveBackslashesLiteral();
    IndentedOpenFenceIsParseError(rt, " ", "{}");
  }

  lemma BracesStrip()
    ensures !ContainsFence("{}") && !IsSpace("{}"[0])
    ensures TrimEnd("{}") == "{}"
  {
    TrimEndDropsSpace("{}", []);
    assert "{}" + [] == "{}";
  }
}
