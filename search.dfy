/** The web search step: with a SerpAPI key it fetches one results page and flattens the
    decoded response into an ordered list of text fragments; without a key, or on any
    failure, it gives the empty list that sends the handler to its fallback. The fetch
    and its JSON decoding are one parameter. */
module Search {
  import opened Strings

  /** An entry of `organic_results` or `results`: the string fields the flattening reads. */
  datatype Hit = Hit(title: Option<string>, snippet: Option<string>, link: Option<string>)

  /** An organic result with its `rich_snippet.top.snippets` list, when that path is truthy. */
  datatype Organic = Organic(hit: Hit, richSnippets: Option<seq<Option<string>>>)

  /** The decoded response, restricted to what the flattening reads. A list field that is
      missing or not an array is `None`; inside a list, `None` is a null entry. The answer
      box is held as the text JSON.stringify gives for it, when it is truthy. */
  datatype Response = Response(
    organic: Option<seq<Option<Organic>>>,
    answerBox: Option<string>,
    inlineLinks: Option<seq<Option<Option<string>>>>,
    results: Option<seq<Option<Hit>>>)

  /** `if (v) texts.push(v)`. */
  function Present(v: Option<string>): (r: seq<string>)
  {
    if Truthy(v) then [v.value] else []
  }

  function HitTexts(h: Hit): (r: seq<string>)
  {
    Present(h.title) + Present(h.snippet) + Present(h.link)
  }

  /** The truthy entries of a list, in order. */
  function TruthyTexts(vs: seq<Option<string>>): (r: seq<string>)
  {
    if vs == [] then [] else TruthyTexts(vs[..|vs| - 1]) + Present(vs[|vs| - 1])
  }

  function OrganicTexts(o: Organic): (r: seq<string>)
  {
    HitTexts(o.hit) + (if o.richSnippets.Some? then TruthyTexts(o.richSnippets.value) else [])
  }

  /** The fragments of the organic results, result by result. */
  function OrganicGroup(os: seq<Option<Organic>>): (r: seq<string>)
  {
    if os == [] then []
    else OrganicGroup(os[..|os| - 1]) + EntryTexts(os[|os| - 1], OrganicTexts)
  }

  /** What one list entry contributes; a null entry never gets this far. */
  function EntryTexts<T>(e: Option<T>, texts: T -> seq<string>): seq<string> {
    if e.Some? then texts(e.value) else []
  }

  /** The truthy titles of the inline links. */
  function LinkGroup(ls: seq<Option<Option<string>>>): (r: seq<string>)
  {
    if ls == [] then []
    else LinkGroup(ls[..|ls| - 1]) + EntryTexts(ls[|ls| - 1], Present)
  }

  /** The fragments of the general results, result by result. */
  function ResultGroup(rs: seq<Option<Hit>>): (r: seq<string>)
  {
    if rs == [] then []
    else ResultGroup(rs[..|rs| - 1]) + EntryTexts(rs[|rs| - 1], HitTexts)
  }

  function OrEmptyList<T>(xs: Option<seq<T>>): seq<T> {
    if xs.Some? then xs.value else []
  }

  /** The flattening, group after group: organic results, the answer box, the inline-link
      titles, the general results. */
  function Fragments(j: Response): (r: seq<string>)
  {
    OrganicGroup(OrEmptyList(j.organic))
    + (if j.answerBox.Some? then [j.answerBox.value] else [])
    + LinkGroup(OrEmptyList(j.inlineLinks))
    + ResultGroup(OrEmptyList(j.results))
  }

  /** No entry of the list is null. */
  predicate NoNull<T>(xs: seq<Option<T>>) {
    xs == [] || (NoNull(xs[..|xs| - 1]) && xs[|xs| - 1].Some?)
  }

  /** A list is null-free exactly when each of its entries is present. */
  lemma {:induction false} NoNullEach<T>(xs: seq<Option<T>>)
    ensures NoNull(xs) <==> forall k :: 0 <= k < |xs| ==> xs[k].Some?
  {
    if xs != [] {
      var front := xs[..|xs| - 1];
      NoNullEach(front);
      assert forall k :: 0 <= k < |front| ==> front[k] == xs[k];
    }
  }

  /** Reading a field of a null list entry throws, and the exception handler answers `[]`. */
  predicate NullFree(j: Response) {
    NoNull(OrEmptyList(j.organic)) && NoNull(OrEmptyList(j.inlineLinks)) && NoNull(OrEmptyList(j.results))
  }

  /** What searchWeb answers for a fetch outcome (`None` when the request, the decoding or
      the response itself failed). */
  function Harvest(response: Option<Response>): seq<string> {
    if response.Some? && NullFree(response.value) then Fragments(response.value) else []
  }

  /** What searchWeb answers for a query, a key and a fetch: nothing without a key,
      otherwise the harvest of the fetched response. */
  function Searched(query: string, serpKey: Option<string>, fetch: (string, string) -> Option<Response>): seq<string> {
    if Truthy(serpKey) then Harvest(fetch(query, serpKey.value)) else []
  }

  /** searchWeb: `fetch(query, key)` is the decoded SerpAPI response, or `None` when the
      request or its decoding throws or the body is null. */
  method SearchWeb(query: string, serpKey: Option<string>, fetch: (string, string) -> Option<Response>)
    returns (texts: seq<string>)
    ensures !Truthy(serpKey) ==> texts == []
    ensures Truthy(serpKey) ==> texts == Harvest(fetch(query, serpKey.value))
    ensures texts == Searched(query, serpKey, fetch)
  {
    if !Truthy(serpKey) {
      return [];
    }
    var response := fetch(query, serpKey.value);
    if response.None? {
      return [];
    }
    var json := response.value;
    var organic, ok := AppendOrganic([], OrEmptyList(json.organic));
    if !ok {
      return [];
    }
    var answer := if json.answerBox.Some? then [json.answerBox.value] else [];
    var links, ok' := AppendLinks(organic + answer, OrEmptyList(json.inlineLinks));
    if !ok' {
      return [];
    }
    var ok'';
    texts, ok'' := AppendResults(links, OrEmptyList(json.results));
    if !ok'' {
      return [];
    }
    assert organic == OrganicGroup(OrEmptyList(json.organic));
    assert links == organic + answer + LinkGroup(OrEmptyList(json.inlineLinks));
    assert texts == links + ResultGroup(OrEmptyList(json.results));
    assert NullFree(json);
  }

  lemma TruthyTextsSnoc(vs: seq<Option<string>>, v: Option<string>)
    ensures TruthyTexts(vs + [v]) == TruthyTexts(vs) + Present(v)
  {
    assert (vs + [v])[..|vs|] == vs;
  }

  lemma LinkGroupSnoc(ls: seq<Option<Option<string>>>, title: Option<string>)
    ensures LinkGroup(ls + [Some(title)]) == LinkGroup(ls) + Present(title)
  {
    assert (ls + [Some(title)])[..|ls|] == ls;
  }

  /** The loop over `organic_results`; `ok` is false when it stopped at a null entry. */
  method AppendOrganic(texts: seq<string>, organic: seq<Option<Organic>>) returns (r: seq<string>, ok: bool)
    ensures ok == NoNull(organic)
    ensures ok ==> r == texts + OrganicGroup(organic)
  {
    r := texts;
    var i := 0;
    while i < |organic|
      invariant 0 <= i <= |organic|
      invariant NoNull(organic[..i])
      invariant r == texts + OrganicGroup(organic[..i])
    {
      if organic[i].None? {
        NoNullEach(organic);
        return r, false;
      }
      assert organic[..i + 1][..i] == organic[..i];
      r := OrganicPass(texts, organic, i, r);
      i := i + 1;
    }
    assert organic[..i] == organic;
    return r, true;
  }

  /** The loop over `inline_links`. */
  method AppendLinks(texts: seq<string>, links: seq<Option<Option<string>>>) returns (r: seq<string>, ok: bool)
    ensures ok == NoNull(links)
    ensures ok ==> r == texts + LinkGroup(links)
  {
    r := texts;
    var i := 0;
    while i < |links|
      invariant 0 <= i <= |links|
      invariant NoNull(links[..i])
      invariant r == texts + LinkGroup(links[..i])
    {
      if links[i].None? {
        NoNullEach(links);
        return r, false;
      }
      assert links[..i + 1][..i] == links[..i];
      var title := links[i].value;
      if Truthy(title) {
        r := r + [title.value];
      }
      LinkStep(texts, links, i);
      i := i + 1;
    }
    assert links[..i] == links;
    return r, true;
  }

  /** The loop over `results`. */
  method AppendResults(texts: seq<string>, results: seq<Option<Hit>>) returns (r: seq<string>, ok: bool)
    ensures ok == NoNull(results)
    ensures ok ==> r == texts + ResultGroup(results)
  {
    r := texts;
    var i := 0;
    while i < |results|
      invariant 0 <= i <= |results|
      invariant NoNull(results[..i])
      invariant r == texts + ResultGroup(results[..i])
    {
      if results[i].None? {
        NoNullEach(results);
        return r, false;
      }
      assert results[..i + 1][..i] == results[..i];
      r := ResultPass(texts, results, i, r);
      i := i + 1;
    }
    assert results[..i] == results;
    return r, true;
  }

  /** One pass of the loop over `organic_results`, on the fragments gathered so far. */
  method OrganicPass(texts: seq<string>, os: seq<Option<Organic>>, i: nat, acc: seq<string>) returns (r: seq<string>)
    requires i < |os| && os[i].Some? && acc == texts + OrganicGroup(os[..i])
    ensures r == texts + OrganicGroup(os[..i + 1])
  {
    r := AppendOrganicResult(acc, os[i].value);
    OrganicStep(texts, os, i);
  }

  /** One pass of the loop over `results`. */
  method ResultPass(texts: seq<string>, rs: seq<Option<Hit>>, i: nat, acc: seq<string>) returns (r: seq<string>)
    requires i < |rs| && rs[i].Some? && acc == texts + ResultGroup(rs[..i])
    ensures r == texts + ResultGroup(rs[..i + 1])
  {
    r := AppendHit(acc, rs[i].value);
    ResultStep(texts, rs, i);
  }

  /** One pass of each loop: the entry at `i` adds its own fragments after those before it. */
  lemma OrganicStep(texts: seq<string>, os: seq<Option<Organic>>, i: nat)
    requires i < |os| && os[i].Some?
    ensures texts + OrganicGroup(os[..i + 1]) == (texts + OrganicGroup(os[..i])) + OrganicTexts(os[i].value)
  {
    assert os[..i + 1] == os[..i] + [os[i]];
    OrganicGroupLast(os[..i], os[i]);
  }

  lemma LinkStep(texts: seq<string>, ls: seq<Option<Option<string>>>, i: nat)
    requires i < |ls| && ls[i].Some?
    ensures texts + LinkGroup(ls[..i + 1]) == (texts + LinkGroup(ls[..i])) + Present(ls[i].value)
  {
    assert ls[..i + 1] == ls[..i] + [Some(ls[i].value)];
    LinkGroupSnoc(ls[..i], ls[i].value);
  }

  lemma ResultStep(texts: seq<string>, rs: seq<Option<Hit>>, i: nat)
    requires i < |rs| && rs[i].Some?
    ensures texts + ResultGroup(rs[..i + 1]) == (texts + ResultGroup(rs[..i])) + HitTexts(rs[i].value)
  {
    assert rs[..i + 1] == rs[..i] + [rs[i]];
    ResultGroupLast(rs[..i], rs[i]);
  }

  /** The pushes for one organic result. */
  method AppendOrganicResult(texts: seq<string>, o: Organic) returns (r: seq<string>)
    ensures r == texts + OrganicTexts(o)
  {
    r := AppendHit(texts, o.hit);
    if o.richSnippets.Some? {
      r := AppendTruthy(r, o.richSnippets.value);
    }
  }

  /** The three pushes of a hit's title, snippet and link. */
  method AppendHit(texts: seq<string>, h: Hit) returns (r: seq<string>)
    ensures r == texts + HitTexts(h)
  {
    r := texts;
    if Truthy(h.title) {
      r := r + [h.title.value];
    }
    if Truthy(h.snippet) {
      r := r + [h.snippet.value];
    }
    if Truthy(h.link) {
      r := r + [h.link.value];
    }
  }

  /** The loop that pushes each truthy entry of a list. */
  method AppendTruthy(texts: seq<string>, vs: seq<Option<string>>) returns (r: seq<string>)
    ensures r == texts + TruthyTexts(vs)
  {
    r := texts;
    var k := 0;
    while k < |vs|
      invariant 0 <= k <= |vs|
      invariant r == texts + TruthyTexts(vs[..k])
    {
      ghost var prev := r;
      if Truthy(vs[k]) {
        r := r + [vs[k].value];
      }
      assert r == prev + Present(vs[k]);
      assert vs[..k + 1] == vs[..k] + [vs[k]];
      TruthyTextsSnoc(vs[..k], vs[k]);
      k := k + 1;
    }
    assert vs[..k] == vs;
  }

  /** Flattening the organic results distributes over concatenation: a page split in two
      flattens to the two halves' fragments, in order. */
  lemma {:induction false} OrganicGroupAppend(a: seq<Option<Organic>>, b: seq<Option<Organic>>)
    ensures OrganicGroup(a + b) == OrganicGroup(a) + OrganicGroup(b)
  {
    if b == [] {
      assert a + b == a;
    } else {
      var b', e := b[..|b| - 1], b[|b| - 1];
      assert a + b == (a + b') + [e];
      assert b == b' + [e];
      OrganicGroupAppend(a, b');
      OrganicGroupLast(a + b', e);
      OrganicGroupLast(b', e);
      AppendAssoc(OrganicGroup(a), OrganicGroup(b'), EntryTexts(e, OrganicTexts));
    }
  }

  /** The same for the general results. */
  lemma {:induction false} ResultGroupAppend(a: seq<Option<Hit>>, b: seq<Option<Hit>>)
    ensures ResultGroup(a + b) == ResultGroup(a) + ResultGroup(b)
  {
    if b == [] {
      assert a + b == a;
    } else {
      var b', e := b[..|b| - 1], b[|b| - 1];
      assert a + b == (a + b') + [e];
      assert b == b' + [e];
      ResultGroupAppend(a, b');
      ResultGroupLast(a + b', e);
      ResultGroupLast(b', e);
      AppendAssoc(ResultGroup(a), ResultGroup(b'), EntryTexts(e, HitTexts));
    }
  }

  /** Regrouping a concatenation, stated over fresh variables: given as a lemma call, it
      spares the solver from proving it by extensionality over the large terms above. */
  lemma AppendAssoc(a: seq<string>, b: seq<string>, c: seq<string>)
    ensures (a + b) + c == a + (b + c)
  {
  }

  lemma OrganicGroupLast(os: seq<Option<Organic>>, e: Option<Organic>)
    ensures OrganicGroup(os + [e]) == OrganicGroup(os) + EntryTexts(e, OrganicTexts)
  {
    assert (os + [e])[..|os|] == os;
  }

  lemma ResultGroupLast(rs: seq<Option<Hit>>, e: Option<Hit>)
    ensures ResultGroup(rs + [e]) == ResultGroup(rs) + EntryTexts(e, HitTexts)
  {
    assert (rs + [e])[..|rs|] == rs;
  }

  /** A single organic result contributes title, snippet and link, then its rich snippets. */
  lemma OneOrganicResult(o: Organic)
    ensures OrganicGroup([Some(o)]) == Present(o.hit.title) + Present(o.hit.snippet) + Present(o.hit.link)
      + (if o.richSnippets.Some? then TruthyTexts(o.richSnippets.value) else [])
  {
    assert [Some(o)][..0] == [];
  }
}
