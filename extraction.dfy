/** The extraction engine of the server: it numbers the first twelve evidence snippets
    into a prompt, asks the language-model oracle, recovers a JSON object from its reply in
    two stages, normalises the fields, fills in a heuristic confidence when the model gave
    none, and then gates the date on a 0.5 confidence floor and on its calendar-date shape.
    Every failure collapses to the same no-evidence record. The oracle and JSON.parse are
    parameters. */
module Extraction {
  import opened Strings

  /** A value as JSON.parse produces it. */
  datatype Json =
    | JNull
    | JBool(b: bool)
    | JNumber(n: real)
    | JString(s: string)
    | JArray(items: seq<Json>)
    | JObject(members: seq<(string, Json)>)

  /** JavaScript truthiness of a value that may be undefined (`None`). */
  predicate JsTruthy(v: Option<Json>) {
    match v
    case None => false
    case Some(JNull) => false
    case Some(JBool(b)) => b
    case Some(JNumber(n)) => n != 0.0
    case Some(JString(s)) => s != ""
    case Some(_) => true
  }

  /** The value of the last member named `key`, if any. */
  function LastMember(members: seq<(string, Json)>, key: string): (r: Option<Json>)
    ensures r.Some? ==> exists k :: 0 <= k < |members| && members[k] == (key, r.value)
    ensures r.None? ==> forall k :: 0 <= k < |members| ==> members[k].0 != key
  {
    if members == [] then None
    else if members[|members| - 1].0 == key then Some(members[|members| - 1].1)
    else LastMember(members[..|members| - 1], key)
  }

  /** Property access `v.key`: the last member of that name of an object (JSON.parse keeps
      the last of duplicated keys), and undefined on anything else. */
  function Member(v: Json, key: string): Option<Json> {
    if v.JObject? then LastMember(v.members, key) else None
  }

  lemma LastMemberSkips(members: seq<(string, Json)>, m: (string, Json), key: string)
    requires m.0 != key
    ensures LastMember(members + [m], key) == LastMember(members, key)
  {
    assert (members + [m])[..|members|] == members;
  }

  /** A later duplicate overrides an earlier one. */
  lemma LastDuplicateWins(members: seq<(string, Json)>, key: string, x: Json)
    ensures Member(JObject(members + [(key, x)]), key) == Some(x)
  {
  }

  /** The position of the first `c` in `s`. */
  function IndexOf(s: string, c: char): (r: Option<nat>)
    ensures r.Some? ==> r.value < |s| && s[r.value] == c && forall k :: 0 <= k < r.value ==> s[k] != c
    ensures r.None? ==> forall k :: 0 <= k < |s| ==> s[k] != c
  {
    if s == [] then None
    else if s[0] == c then Some(0)
    else
      match IndexOf(s[1..], c)
      case None => None
      case Some(k) => Some(k + 1)
  }

  /** The position of the last `c` in `s`. */
  function LastIndexOf(s: string, c: char): (r: Option<nat>)
    ensures r.Some? ==> r.value < |s| && s[r.value] == c && forall k :: r.value < k < |s| ==> s[k] != c
    ensures r.None? ==> forall k :: 0 <= k < |s| ==> s[k] != c
  {
    if s == [] then None
    else if s[|s| - 1] == c then Some(|s| - 1)
    else LastIndexOf(s[..|s| - 1], c)
  }

  /** The match of `/\{[\s\S]*\}/` in `text`, as a half-open range: it starts at the first
      `{` and, the star being greedy, ends after the last `}`; there is none when no `}`
      follows a `{`. */
  function BraceSpan(text: string): (r: Option<(nat, nat)>)
    ensures r.Some? ==>
      var (i, e) := r.value;
      i + 2 <= e <= |text| && text[i] == '{' && text[e - 1] == '}'
      && (forall k :: 0 <= k < i ==> text[k] != '{')
      && (forall k :: e <= k < |text| ==> text[k] != '}')
    ensures r.None? <==> forall i, k :: 0 <= i < k < |text| && text[i] == '{' ==> text[k] != '}'
  {
    match (IndexOf(text, '{'), LastIndexOf(text, '}'))
    case (Some(i), Some(j)) => if i < j then Some((i, j + 1)) else None
    case _ => None
  }

  /** What safeParseJSON's two stages give: the strict parse of the whole reply, the parse
      of the brace-delimited substring, or nothing (null). */
  datatype ParseOutcome = Strict(value: Json) | Recovered(value: Json) | Unparseable

  /** The substring the recovery stage parses: the brace-delimited match, if any. */
  function BraceText(text: string): Option<string> {
    match BraceSpan(text)
    case None => None
    case Some((i, e)) => Some(text[i..e])
  }

  /** safeParseJSON, with JSON.parse as `parse` (`None` when it throws). */
  function SafeParse(text: string, parse: string -> Option<Json>): (r: ParseOutcome)
    ensures parse(text).Some? ==> r == Strict(parse(text).value)
    ensures r.Strict? ==> parse(text) == Some(r.value)
    ensures r.Recovered? ==>
      (parse(text).None? && BraceText(text).Some? && parse(BraceText(text).value) == Some(r.value))
    ensures r.Unparseable? <==>
      (parse(text).None? && (BraceText(text).None? || parse(BraceText(text).value).None?))
  {
    match parse(text)
    case Some(v) => Strict(v)
    case None =>
      match BraceText(text)
      case None => Unparseable
      case Some(inner) =>
        match parse(inner)
        case Some(v) => Recovered(v)
        case None => Unparseable
  }

  /** A reply that wraps one object in chatter without braces is recovered by the second
      stage when the whole reply does not parse. */
  lemma RecoversWrappedObject(before: string, obj: string, after: string, parse: string -> Option<Json>)
    requires forall k :: 0 <= k < |before| ==> before[k] != '{'
    requires forall k :: 0 <= k < |after| ==> after[k] != '}'
    requires |obj| >= 2 && obj[0] == '{' && obj[|obj| - 1] == '}'
    requires parse(before + obj + after).None? && parse(obj).Some?
    ensures SafeParse(before + obj + after, parse) == Recovered(parse(obj).value)
  {
    var text := before + obj + after;
    var i, j := |before|, |before| + |obj| - 1;
    assert text[i] == '{' && text[j] == '}';
    assert IndexOf(text, '{') == Some(i);
    assert LastIndexOf(text, '}') == Some(j);
    assert text[i..j + 1] == obj;
  }

  /** The record every failure path returns. */
  datatype Extraction = Extraction(date: Option<string>, official: bool, source: Option<string>, confidence: real)

  const NoEvidence := Extraction(None, false, None, 0.0)

  /** `!!date && /^\d{4}-\d{2}-\d{2}/.test(date)`: the heuristic's notion of a date. */
  predicate HasDate(date: Option<string>) {
    Truthy(date) && DatePrefix(date.value)
  }

  /** A full match of `/^\d{4}-\d{2}-\d{2}([T ].*)?$/`: a calendar date, optionally followed
      by `T` or a space and a tail without line terminators. Ranges are not checked. */
  predicate FullDate(s: string) {
    DatePrefix(s)
    && (|s| == 10
        || ((s[10] == 'T' || s[10] == ' ') && forall k :: 11 <= k < |s| ==> !IsLineTerminator(s[k])))
  }

  /** The alternatives of the institutional-source pattern, lower-cased; the pattern
      carries the `i` flag and lists `universidad` twice. */
  const InstitutionalMarks: seq<string> :=
    [".edu", ".gob", ".gov", "universidad", "universitary", "comunicado", "portal institucional", "ministerio"]

  function AnyMarkIn(s: string, marks: seq<string>): (b: bool)
    ensures b <==> exists k :: 0 <= k < |marks| && Contains(s, marks[k])
  {
    if marks == [] then false
    else if Contains(s, marks[0]) then true
    else
      var b := AnyMarkIn(s, marks[1..]);
      assert forall k :: 1 <= k < |marks| ==> marks[k] == marks[1..][k - 1];
      b
  }

  /** Whether a source reads as institutional: it contains, ignoring case, one of the marks. */
  function Institutional(source: string): (b: bool)
    ensures b <==> exists k :: 0 <= k < |InstitutionalMarks| && Contains(Lower(source), InstitutionalMarks[k])
  {
    AnyMarkIn(Lower(source), InstitutionalMarks)
  }

  /** computeConfidence: the tiered heuristic score. */
  function Score(date: Option<string>, official: bool, source: Option<string>): (c: real)
    ensures c == 0.0 || c == 0.5 || c == 0.6 || c == 0.75 || c == 0.9
    ensures c >= 0.5 <==> HasDate(date)
    ensures c >= 0.75 <==> HasDate(date) && official
    ensures c == 0.9 <==> HasDate(date) && official && Institutional(OrEmpty(source))
    ensures c == 0.6 <==> HasDate(date) && !official && Institutional(OrEmpty(source))
  {
    var hasDate := HasDate(date);
    var institutional := Institutional(OrEmpty(source));
    if hasDate && official && institutional then 0.9
    else if hasDate && official then 0.75
    else if hasDate && institutional then 0.6
    else if hasDate then 0.5
    else 0.0
  }

  /** `source || ''`. */
  function OrEmpty(s: Option<string>): string {
    if s.Some? then s.value else ""
  }

  /** The heuristic only rewards: adding officiality or an institutional source never
      lowers the score. */
  lemma ScoreMonotone(date: Option<string>, source: Option<string>, source': Option<string>)
    requires Institutional(OrEmpty(source)) ==> Institutional(OrEmpty(source'))
    ensures Score(date, false, source) <= Score(date, true, source)
    ensures Score(date, false, source) <= Score(date, false, source')
    ensures Score(date, true, source) <= Score(date, true, source')
  {
  }

  /** A string field as the normalisation keeps it: a non-empty string, otherwise null. */
  function TextField(v: Option<Json>): (r: Option<string>)
    ensures r.Some? ==> v == Some(JString(r.value)) && r.value != ""
    ensures r.None? ==> !(v.Some? && v.value.JString? && v.value.s != "")
  {
    match v
    case Some(JString(s)) => if s != "" then Some(s) else None
    case _ => None
  }

  /** The object analyzeWithAI builds from a parsed reply, with the model's numeric
      confidence kept as it is and the heuristic score only when there is none. */
  function Normalise(parsed: Json): (r: Extraction)
    ensures r.date == TextField(Member(parsed, "date"))
    ensures r.official == JsTruthy(Member(parsed, "official"))
    ensures r.source == TextField(Member(parsed, "source"))
    ensures Member(parsed, "confidence").Some? && Member(parsed, "confidence").value.JNumber? ==>
      r.confidence == Member(parsed, "confidence").value.n
    ensures !(Member(parsed, "confidence").Some? && Member(parsed, "confidence").value.JNumber?) ==>
      r.confidence == Score(r.date, r.official, r.source)
  {
    var date := TextField(Member(parsed, "date"));
    var official := JsTruthy(Member(parsed, "official"));
    var source := TextField(Member(parsed, "source"));
    var confidence :=
      match Member(parsed, "confidence")
      case Some(JNumber(n)) => n
      case _ => Score(date, official, source);
    Extraction(date, official, source, confidence)
  }

  /** The conservative policy: below the 0.5 floor, or with a date that is not a full
      calendar date, the date and the official flag are dropped while the source and the
      confidence are kept. */
  function Gate(x: Extraction): (r: Extraction)
    requires x.date != Some("") && x.source != Some("")  // normalisation turns empty text into null
    ensures r.source == x.source && r.confidence == x.confidence
    ensures r.date.Some? ==> x.confidence >= 0.5 && FullDate(r.date.value)
    ensures x.confidence < 0.5 ==> r.date.None? && !r.official
    ensures x.confidence >= 0.5 && (x.date.None? || FullDate(x.date.value)) ==> r == x
    ensures r.date.Some? ==> r.date == x.date
    ensures r != x ==> r == Extraction(None, false, x.source, x.confidence)
  {
    if x.confidence < 0.5 then Extraction(None, false, x.source, x.confidence)
    else if Truthy(x.date) && !FullDate(x.date.value) then Extraction(None, false, x.source, x.confidence)
    else x
  }

  /** The prompt sent to the oracle: the institution and the numbered context (the rest of
      the prompt is fixed English text). */
  datatype Prompt = Prompt(institution: string, context: string)

  /** `texts.map((t, i) => `${i+1}. ${t}`)`. */
  function Numbered(texts: seq<string>): (r: seq<string>)
    ensures |r| == |texts|
    ensures forall i :: 0 <= i < |texts| ==> r[i] == Decimal(i + 1) + ". " + texts[i]
  {
    if texts == [] then []
    else Numbered(texts[..|texts| - 1]) + [Decimal(|texts|) + ". " + texts[|texts| - 1]]
  }

  const MaxSnippets := 12

  /** The context block: the first twelve snippets, numbered, separated by a blank line. */
  function Context(texts: seq<string>): string {
    var used := if |texts| <= MaxSnippets then texts else texts[..MaxSnippets];
    Join(Numbered(used), "\n\n")
  }

  /** Snippets after the twelfth never reach the oracle. */
  lemma ContextIgnoresTail(texts: seq<string>, texts': seq<string>)
    requires |texts| >= MaxSnippets && |texts'| >= MaxSnippets
    requires texts[..MaxSnippets] == texts'[..MaxSnippets]
    ensures Context(texts) == Context(texts')
  {
    assert |texts| == MaxSnippets ==> texts == texts[..MaxSnippets];
    assert |texts'| == MaxSnippets ==> texts' == texts'[..MaxSnippets];
  }

  /** What one analysis gives back, with the prompt that went to the oracle, or `None` when
      the oracle was not called. */
  datatype Analysis = Analysis(result: Extraction, asked: Option<Prompt>)

  /** The credential gate: a missing or empty key counts as absent. */
  predicate KeySet(apiKey: Option<string>) {
    Truthy(apiKey)
  }

  /** analyzeWithAI outside its development mock: `oracle(prompt, key)` is the model's reply
      text (`None` on any transport failure or empty body) and `parse` is JSON.parse. */
  function Analyze(name: string, texts: seq<string>, apiKey: Option<string>,
                   oracle: (Prompt, string) -> Option<string>, parse: string -> Option<Json>): (a: Analysis)
    ensures a.asked.Some? <==> texts != [] && KeySet(apiKey)
    ensures a.asked.Some? ==> a.asked.value == Prompt(name, Context(texts))
    ensures a.asked.None? ==> a.result == NoEvidence
    ensures a.result.date.Some? ==> a.result.confidence >= 0.5 && FullDate(a.result.date.value)
    ensures a.result.confidence < 0.5 ==> a.result.date.None? && !a.result.official
    ensures a.result.source.Some? ==> a.result.source.value != ""
  {
    if texts == [] then Analysis(NoEvidence, None)
    else if !KeySet(apiKey) then Analysis(NoEvidence, None)
    else
      var prompt := Prompt(name, Context(texts));
      var raw := oracle(prompt, apiKey.value);
      if !Truthy(raw) then Analysis(NoEvidence, Some(prompt))
      else
        var parsed := SafeParse(raw.value, parse);
        if parsed.Unparseable? || !JsTruthy(Some(parsed.value)) then Analysis(NoEvidence, Some(prompt))
        else Analysis(Gate(Normalise(parsed.value)), Some(prompt))
  }

  /** The oracle was asked (there are texts and a key) and replied `raw`. */
  predicate Asked(name: string, texts: seq<string>, apiKey: Option<string>,
                  oracle: (Prompt, string) -> Option<string>, raw: Option<string>)
  {
    texts != [] && KeySet(apiKey) && oracle(Prompt(name, Context(texts)), apiKey.value) == raw
  }

  /** An absent or empty reply gives the no-evidence record. */
  lemma EmptyReplyGivesNoEvidence(name: string, texts: seq<string>, apiKey: Option<string>,
                                  oracle: (Prompt, string) -> Option<string>, parse: string -> Option<Json>,
                                  raw: Option<string>)
    requires Asked(name, texts, apiKey, oracle, raw) && !Truthy(raw)
    ensures Analyze(name, texts, apiKey, oracle, parse) == Analysis(NoEvidence, Some(Prompt(name, Context(texts))))
  {
  }

  /** A reply that safeParseJSON turns into null, or into a falsy value, gives the
      no-evidence record. */
  lemma UnparseableGivesNoEvidence(name: string, texts: seq<string>, apiKey: Option<string>,
                                   oracle: (Prompt, string) -> Option<string>, parse: string -> Option<Json>,
                                   raw: string)
    requires Asked(name, texts, apiKey, oracle, Some(raw)) && raw != ""
    requires SafeParse(raw, parse).Unparseable? || !JsTruthy(Some(SafeParse(raw, parse).value))
    ensures Analyze(name, texts, apiKey, oracle, parse).result == NoEvidence
  {
  }

  /** A reply that does not parse, and whose brace-delimited text is missing or does not
      parse either, gives the no-evidence record. */
  lemma GarbledReplyGivesNoEvidence(name: string, texts: seq<string>, apiKey: Option<string>,
                                    oracle: (Prompt, string) -> Option<string>, parse: string -> Option<Json>,
                                    raw: string)
    requires Asked(name, texts, apiKey, oracle, Some(raw))
    requires parse(raw).None? && (BraceText(raw).None? || parse(BraceText(raw).value).None?)
    ensures Analyze(name, texts, apiKey, oracle, parse).result == NoEvidence
  {
  }

  /** What a parsed reply turns into once normalised and gated (`AnalyzeOnReply` carries it
      to the analysis). */
  function Outcome(v: Json): Extraction {
    Gate(Normalise(v))
  }

  /** A reply that parses, strictly or after brace recovery, to a truthy value goes through
      normalisation and the gate. */
  lemma AnalyzeOnReply(name: string, texts: seq<string>, apiKey: Option<string>,
                       oracle: (Prompt, string) -> Option<string>, parse: string -> Option<Json>,
                       raw: string, v: Json)
    requires Asked(name, texts, apiKey, oracle, Some(raw)) && raw != ""
    requires SafeParse(raw, parse) == Strict(v) || SafeParse(raw, parse) == Recovered(v)
    requires JsTruthy(Some(v))
    ensures Analyze(name, texts, apiKey, oracle, parse).result == Outcome(v)
  {
  }

  /** A dated, official answer under the floor keeps only its source and confidence. */
  lemma LowConfidenceIsDowngraded()
    ensures Outcome(JObject([("date", JString("2026-03-01")), ("official", JBool(true)),
                             ("source", JString("foo")), ("confidence", JNumber(0.4))]))
         == Extraction(None, false, Some("foo"), 0.4)
  {
    var v := JObject([("date", JString("2026-03-01")), ("official", JBool(true)),
                      ("source", JString("foo")), ("confidence", JNumber(0.4))]);
    assert Member(v, "source") == Some(JString("foo"));
    assert Member(v, "confidence") == Some(JNumber(0.4));
  }

  /** The model's own confidence is kept as given, even above 1, once it clears the floor. */
  lemma ModelConfidenceIsNotClamped(date: string, c: real)
    requires FullDate(date) && c >= 0.5
    ensures Outcome(JObject([("date", JString(date)), ("official", JBool(true)), ("confidence", JNumber(c))]))
         == Extraction(Some(date), true, None, c)
  {
    var v := JObject([("date", JString(date)), ("official", JBool(true)), ("confidence", JNumber(c))]);
    var front := [("date", JString(date)), ("official", JBool(true))];
    assert v.members == front + [("confidence", JNumber(c))];
    assert front == [("date", JString(date))] + [("official", JBool(true))];
    LastMemberSkips(front, ("confidence", JNumber(c)), "date");
    LastMemberSkips(front, ("confidence", JNumber(c)), "official");
    LastMemberSkips([("date", JString(date))], ("official", JBool(true)), "date");
    assert Member(v, "date") == Some(JString(date));
    assert Member(v, "official") == Some(JBool(true));
    assert Member(v, "source") == None;
    assert Member(v, "confidence") == Some(JNumber(c));
  }

  /** An answer flagged official without a date passes the gate with its flag set. */
  lemma OfficialWithoutDate()
    ensures Outcome(JObject([("official", JBool(true)), ("confidence", JNumber(0.8))]))
         == Extraction(None, true, None, 0.8)
  {
    var v := JObject([("official", JBool(true)), ("confidence", JNumber(0.8))]);
    assert Member(v, "date") == None;
    assert Member(v, "official") == Some(JBool(true));
    assert Member(v, "source") == None;
    assert Member(v, "confidence") == Some(JNumber(0.8));
  }

  /** Without a numeric confidence the heuristic decides: a full date from an institutional
      source marked official scores the top tier. */
  lemma HeuristicScoresInstitutionalAnswer(date: string, source: string)
    requires FullDate(date) && source != "" && Institutional(source)
    ensures Outcome(JObject([("date", JString(date)), ("official", JBool(true)), ("source", JString(source))]))
         == Extraction(Some(date), true, Some(source), 0.9)
  {
    var v := JObject([("date", JString(date)), ("official", JBool(true)), ("source", JString(source))]);
    var front := [("date", JString(date)), ("official", JBool(true))];
    assert v.members == front + [("source", JString(source))];
    assert front == [("date", JString(date))] + [("official", JBool(true))];
    LastMemberSkips(front, ("source", JString(source)), "date");
    LastMemberSkips(front, ("source", JString(source)), "official");
    LastMemberSkips([("date", JString(date))], ("official", JBool(true)), "date");
    assert Member(v, "date") == Some(JString(date));
    assert Member(v, "official") == Some(JBool(true));
    assert Member(v, "source") == Some(JString(source));
    assert Member(v, "confidence") == None;
  }
}
