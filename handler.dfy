/** The `/api/university` handler: the registry first, then web search and extraction,
    then the historical prediction, each step only when the previous one found no date. The
    collaborators it calls through the network, and the clock, come in an environment. */
module Handler {
  import opened Strings
  import opened Registry
  import RegistryFacts
  import Extraction
  import Search
  import Predict

  /** Everything outside the handler that its result depends on. */
  datatype Env = Env(
    serpKey: Option<string>,
    fetch: (string, string) -> Option<Search.Response>,
    aiKey: Option<string>,
    oracle: (Extraction.Prompt, string) -> Option<string>,
    parse: string -> Option<Extraction.Json>,
    year: nat)

  /** The JSON body of a successful response. */
  datatype Resolved = Resolved(date: Option<string>, official: bool, source: Option<string>, confidence: real, usedFallback: bool)

  /** Status 400 `{error:'missing name'}`, status 500 `{error:'internal error'}`, or 200. */
  datatype Reply = BadRequest | InternalError | Answer(body: Resolved)

  /** The response built from a record that passes the short-circuit test. */
  function FromRegistry(u: Record): (r: Resolved)
    requires Trusted(u)
    ensures r.date == u.inicioOficial && r.confidence == u.confianza.value && !r.usedFallback
    ensures r.official <==> u.tipo == Some(Oficial)
    ensures r.source.Some? && (Truthy(u.fuente) ==> r.source == u.fuente)
    ensures !Truthy(u.fuente) ==> r.source == Some("datos-locales")
  {
    Resolved(u.inicioOficial, u.tipo == Some(Oficial),
             Some(if Truthy(u.fuente) then u.fuente.value else "datos-locales"),
             u.confianza.value, false)
  }

  /** The response built from the prediction: estimated, never official. */
  function FromPrediction(p: Predict.Forecast): (r: Resolved)
    ensures r.usedFallback && !r.official
    ensures r.date == OrNull(Some(p.date)) && r.source == OrNull(Some(p.source))
    ensures r.confidence == p.confidence
  {
    Resolved(OrNull(Some(p.date)), false, OrNull(Some(p.source)), p.confidence, true)
  }

  /** The handler for the query parameter `name` and the institution table `table`. */
  function Resolve(name: Option<string>, table: seq<Record>, env: Env): (r: Reply)
    ensures r.BadRequest? <==> !Truthy(name)
    ensures r.Answer? && !r.body.usedFallback ==> r.body.date.Some?
    ensures r.Answer? && r.body.official ==> r.body.date.Some?
    ensures r.Answer? && r.body.usedFallback ==> !r.body.official && r.body.confidence < 0.5
    ensures r.Answer? ==> r.body.confidence >= 0.25
    ensures r.InternalError? ==> Truthy(name) && Predict.PredictHistorically(table, name.value, env.year).None?
  {
    if !Truthy(name) then BadRequest
    else
      var n := name.value;
      var local := Find(table, n);
      if local.Some? && Trusted(local.value) then Answer(FromRegistry(local.value))
      else
        var ai := Extraction.Analyze(n, Search.Searched(n, env.serpKey, env.fetch), env.aiKey, env.oracle, env.parse).result;
        if Truthy(ai.date) then
          Answer(Resolved(ai.date, ai.official, ai.source, ai.confidence, false))
        else
          match Predict.PredictHistorically(table, n, env.year)
          case None => InternalError
          case Some(p) => Answer(FromPrediction(p))
  }

  /** A registry hit decides alone: search, extraction and the clock are never consulted. */
  lemma ShortCircuitIgnoresEnv(name: string, table: seq<Record>, env: Env, env': Env)
    requires name != "" && Find(table, name).Some? && Trusted(Find(table, name).value)
    ensures Resolve(Some(name), table, env) == Resolve(Some(name), table, env')
    ensures Resolve(Some(name), table, env) == Answer(FromRegistry(Find(table, name).value))
  {
  }

  /** When extraction yields a date, the response is that extraction, marked as found. */
  lemma ExtractionHit(name: string, table: seq<Record>, env: Env)
    requires name != "" && !(Find(table, name).Some? && Trusted(Find(table, name).value))
    requires Truthy(Extraction.Analyze(name, Search.Searched(name, env.serpKey, env.fetch), env.aiKey, env.oracle, env.parse).result.date)
    ensures var x := Extraction.Analyze(name, Search.Searched(name, env.serpKey, env.fetch), env.aiKey, env.oracle, env.parse).result;
      Resolve(Some(name), table, env) == Answer(Resolved(x.date, x.official, x.source, x.confidence, false))
      && x.confidence >= 0.5 && Extraction.FullDate(x.date.value)
  {
  }

  /** Without a search key nothing reaches the oracle, so the prediction answers. */
  lemma NoSearchKeyFallsBack(name: string, table: seq<Record>, env: Env)
    requires name != "" && !(Find(table, name).Some? && Trusted(Find(table, name).value))
    requires !Truthy(env.serpKey)
    requires Predict.PredictHistorically(table, name, env.year).Some?
    ensures Resolve(Some(name), table, env)
         == Answer(FromPrediction(Predict.PredictHistorically(table, name, env.year).value))
  {
  }

  /** With no trusted registry hit and no extraction date, the prediction answers, or the
      handler fails with 500 when the predictor throws. */
  lemma Fallback(name: string, table: seq<Record>, env: Env)
    requires name != "" && !(Find(table, name).Some? && Trusted(Find(table, name).value))
    requires !Truthy(Extraction.Analyze(name, Search.Searched(name, env.serpKey, env.fetch), env.aiKey, env.oracle, env.parse).result.date)
    ensures Resolve(Some(name), table, env)
         == match Predict.PredictHistorically(table, name, env.year)
            case None => InternalError
            case Some(p) => Answer(FromPrediction(p))
  {
  }

  /** On the seeded table the handler never answers 500. */
  lemma SeededTableNeverFails(name: Option<string>, env: Env)
    ensures !Resolve(name, Universidades, env).InternalError?
  {
    if Truthy(name) {
      Predict.SeededTableNeverThrows(name.value, env.year);
    }
  }

  /** When exactly the first two records of a table are trusted, the registry answers
      exactly the names that find one of them. */
  lemma ShortCircuitExactly(table: seq<Record>, name: string)
    requires |table| >= 2
    requires forall i :: 0 <= i < |table| ==> (Trusted(table[i]) <==> i < 2)
    ensures Find(table, name).Some? && Trusted(Find(table, name).value) <==>
      Find(table, name) == Some(table[0]) || Find(table, name) == Some(table[1])
  {
    var u := Find(table, name);
    if u.Some? {
      var i :| 0 <= i < |table| && table[i] == u.value && FirstMatch(table, name, i);
    }
  }

  /** On the seeded table only PUCP and Universidad de Lima are answered from the registry. */
  lemma SeededShortCircuit(name: string)
    ensures Find(Universidades, name).Some? && Trusted(Find(Universidades, name).value) <==>
      Find(Universidades, name) == Some(Pucp) || Find(Universidades, name) == Some(UniversidadDeLima)
  {
    RegistryFacts.OnlyTwoTrusted();
    ShortCircuitExactly(Universidades, name);
    RegistryFacts.Placed();
  }

  /** PUCP, however it is capitalised, is answered from the registry with its official date. */
  lemma PucpExample(name: string, env: Env)
    requires SameIgnoringCase(name, "PUCP")
    ensures Resolve(Some(name), Universidades, env)
         == Answer(Resolved(Some("2026-03-23T08:00:00Z"), true, Some("Cal.Académico PUCP"), 0.85, false))
  {
    FindPucp(name);
    PucpResponse();
    ShortCircuitIgnoresEnv(name, Universidades, env, env);
  }

  lemma PucpResponse()
    ensures Trusted(Pucp)
    ensures FromRegistry(Pucp) == Resolved(Some("2026-03-23T08:00:00Z"), true, Some("Cal.Académico PUCP"), 0.85, false)
  {
  }

  lemma FindPucp(name: string)
    requires SameIgnoringCase(name, "PUCP")
    ensures Find(Universidades, name) == Some(Pucp)
  {
    RegistryFacts.NamesAreDistinct();
    RegistryFacts.Placed();
    FindUnique(Universidades, name, 0);
  }
}
