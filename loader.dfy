/**
 * loadLanguage in script.js, as a specification on the state it touches: the loaded
 * translations, the document's lang attribute, the tagged elements and the list of
 * locale files requested so far. The network is a given function from a path to the
 * parsed document, None when the response was not ok or not JSON.
 */
module Loader {
  import opened Wrappers
  import opened Translation
  import opened Content

  /** The language retried once when another one fails to load. */
  const DefaultLanguage: string := "tr"

  /** The path `locales/${lang}.json`. */
  function LocaleUrl(lang: string): string
  {
    "locales/" + lang + ".json"
  }

  /** Different languages request different files. */
  lemma LocaleUrlInjective(a: string, b: string)
    requires LocaleUrl(a) == LocaleUrl(b)
    ensures a == b
  {
    assert |a| == |b|;
    assert LocaleUrl(a)[8..8 + |a|] == a;
    assert LocaleUrl(b)[8..8 + |b|] == b;
  }

  /** The part of the page loadLanguage reads and writes. */
  datatype EngineState = EngineState(
    translations: Json,
    docLang: string,
    elements: seq<Element>,
    requests: seq<string>)

  /** The result of one fetch: the new state and whether the try block ran to its end. */
  datatype Attempted = Attempted(state: EngineState, ok: bool)

  /**
   * The try block for one language: fetch; on a document, store it as the
   * translations and apply it; set the lang attribute only when applying did not throw.
   */
  function Attempt(s: EngineState, lang: string, server: string -> Option<Json>): Attempted
  {
    var url := LocaleUrl(lang);
    var fetched := s.(requests := s.requests + [url]);
    match server(url)
    case None => Attempted(fetched, false)
    case Some(doc) =>
      var r := Render(doc, s.elements);
      Attempted(fetched.(translations := doc, elements := r.elements,
                         docLang := if r.complete then lang else s.docLang), r.complete)
  }

  /** loadLanguage(lang): one attempt, and on failure of a language other than "tr" one attempt with "tr". */
  function Load(s: EngineState, lang: string, server: string -> Option<Json>): (r: EngineState)
    decreases if lang == DefaultLanguage then 0 else 1
  {
    var a := Attempt(s, lang, server);
    if a.ok || lang == DefaultLanguage then a.state
    else Load(a.state, DefaultLanguage, server)
  }

  /** At most two files are requested: lang's, then "tr"'s only if lang's failed and lang is not "tr". */
  lemma LoadRequests(s: EngineState, lang: string, server: string -> Option<Json>)
    ensures var first := Attempt(s, lang, server);
      Load(s, lang, server).requests ==
        s.requests + [LocaleUrl(lang)] + (if first.ok || lang == DefaultLanguage then [] else [LocaleUrl(DefaultLanguage)])
  {
  }

  /** Loading "tr" never retries. */
  lemma LoadDefaultOnce(s: EngineState, server: string -> Option<Json>)
    ensures Load(s, DefaultLanguage, server) == Attempt(s, DefaultLanguage, server).state
    ensures Load(s, DefaultLanguage, server).requests == s.requests + [LocaleUrl(DefaultLanguage)]
  {
  }

  /** A successful load replaces the translations, applies them and sets the lang attribute. */
  lemma LoadSuccess(s: EngineState, lang: string, server: string -> Option<Json>, doc: Json)
    requires server(LocaleUrl(lang)) == Some(doc)
    requires Render(doc, s.elements).complete
    ensures Load(s, lang, server) ==
      EngineState(doc, lang, Render(doc, s.elements).elements, s.requests + [LocaleUrl(lang)])
  {
  }

  /** A failed non-default load is followed by exactly the "tr" attempt. */
  lemma LoadFallback(s: EngineState, lang: string, server: string -> Option<Json>)
    requires lang != DefaultLanguage && !Attempt(s, lang, server).ok
    ensures Load(s, lang, server) == Attempt(Attempt(s, lang, server).state, DefaultLanguage, server).state
  {
  }

  /** When every requested file is unavailable, only the request log changes. */
  lemma LoadTotalFailure(s: EngineState, lang: string, server: string -> Option<Json>)
    requires server(LocaleUrl(lang)) == None
    requires lang == DefaultLanguage || server(LocaleUrl(DefaultLanguage)) == None
    ensures var r := Load(s, lang, server);
      r.translations == s.translations && r.docLang == s.docLang && r.elements == s.elements
  {
  }

  /** The lang attribute afterwards is the old one, lang itself, or "tr" after a fallback. */
  lemma LoadDocLang(s: EngineState, lang: string, server: string -> Option<Json>)
    ensures var r := Load(s, lang, server);
      r.docLang == s.docLang || r.docLang == lang || r.docLang == DefaultLanguage
    ensures Load(s, lang, server).docLang == lang <== Attempt(s, lang, server).ok
  {
  }

  /** Elements with the same keys, in the same number. */
  predicate SameKeys(a: seq<Element>, b: seq<Element>)
  {
    |a| == |b| && forall k :: 0 <= k < |a| ==> a[k].key == b[k].key
  }

  /** One attempt keeps the number of tagged elements and their keys. */
  lemma AttemptKeepsKeys(s: EngineState, lang: string, server: string -> Option<Json>)
    ensures SameKeys(Attempt(s, lang, server).state.elements, s.elements)
  {
    match server(LocaleUrl(lang))
    case None =>
    case Some(doc) => RenderKeepsKeys(doc, s.elements);
  }

  /** Loading keeps the number of tagged elements and their keys. */
  lemma LoadKeepsKeys(s: EngineState, lang: string, server: string -> Option<Json>)
    ensures SameKeys(Load(s, lang, server).elements, s.elements)
  {
    var a := Attempt(s, lang, server);
    AttemptKeepsKeys(s, lang, server);
    if !a.ok && lang != DefaultLanguage {
      AttemptKeepsKeys(a.state, DefaultLanguage, server);
    }
  }
}
