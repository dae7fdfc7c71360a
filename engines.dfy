/** The engine resolution both HTTP handlers run after choosing a voice: look
    the voice up in the global catalog and pick an engine it supports,
    preferring "neural", then "standard"; on any failure keep the engine the
    caller asked for. */
module Engines {
  import opened PyValues
  import opened Voices

  /** `[e.lower() for e in engines]`. */
  function LowerAll(engines: seq<string>): (r: seq<string>)
    ensures |r| == |engines| && forall i :: 0 <= i < |engines| ==> r[i] == Lower(engines[i])
  {
    seq(|engines|, i requires 0 <= i < |engines| => Lower(engines[i]))
  }

  /** `"neural" if "neural" in supported else ("standard" if "standard" in supported else None)`. */
  function Preferred(supported: seq<string>): Option<string> {
    if "neural" in supported then Some("neural")
    else if "standard" in supported then Some("standard")
    else None
  }

  /** The index `next((v for v in catalog if v.get("Id") == voiceId), None)`
      stops at: the first voice with that id, or `|vs|` when there is none. */
  function FirstWithId(vs: seq<Voice>, voiceId: string): (k: nat)
    ensures k <= |vs|
    ensures k < |vs| ==> vs[k].id == voiceId
    ensures forall j :: 0 <= j < k ==> vs[j].id != voiceId
  {
    if vs == [] then 0
    else if vs[0].id == voiceId then 0
    else FirstWithId(vs[1..], voiceId) + 1
  }

  /** The engine the handlers end up with, given the global catalog listing. */
  function EngineFor(voiceId: string, engine: Option<string>, catalog: Listing): Option<string> {
    match catalog
    case ListingFailed => engine
    case Listed(vs) =>
      var k := FirstWithId(vs, voiceId);
      if k == |vs| then engine
      else
        var supported := LowerAll(vs[k].engines);
        if supported == [] then None
        else if Truthy(engine) && Lower(engine.value) in supported then engine
        else Preferred(supported)
  }

  /** The handlers' `selected_engine` logic: successive reassignment, with the
      `except` branch restoring the caller's engine when the listing raised. */
  method ResolveEngine(voiceId: string, engine: Option<string>, catalog: Listing)
    returns (selected: Option<string>)
    ensures selected == EngineFor(voiceId, engine, catalog)
  {
    selected := engine;
    if catalog.ListingFailed? {
      selected := engine;
      return;
    }
    var vs := catalog.voices;
    var k := 0;
    while k < |vs| && vs[k].id != voiceId
      invariant k <= |vs|
      invariant forall j :: 0 <= j < k ==> vs[j].id != voiceId
    {
      k := k + 1;
    }
    assert k == FirstWithId(vs, voiceId);
    if k < |vs| {
      var supported := LowerAll(vs[k].engines);
      if supported == [] {
        selected := None;
      } else if Truthy(selected) && Lower(selected.value) !in supported {
        selected := Preferred(supported);
      } else if !Truthy(selected) {
        selected := Preferred(supported);
      }
    }
  }

  lemma LowerLiteral()
    ensures Lower("neural") == "neural" && Lower("standard") == "standard"
  {
    assert Lower("neural") == "neural";
    assert Lower("standard") == "standard";
  }

  /** When the catalog cannot be listed, or has no voice with this id, the
      requested engine is kept as given. */
  lemma EngineFallsBack(voiceId: string, engine: Option<string>, catalog: Listing)
    requires catalog.ListingFailed? || forall i :: 0 <= i < |catalog.voices| ==> catalog.voices[i].id != voiceId
    ensures EngineFor(voiceId, engine, catalog) == engine
  {
  }

  /** For a voice found in the catalog: no engine when it lists none; otherwise
      the requested engine, with its original casing, when it is supported
      (compared in lower case); otherwise "neural" if supported, else
      "standard" if supported, else none. Whatever engine results is one the
      voice supports. */
  lemma EngineForFoundVoice(voiceId: string, engine: Option<string>, vs: seq<Voice>, k: nat)
    requires k < |vs| && vs[k].id == voiceId && forall j :: 0 <= j < k ==> vs[j].id != voiceId
    ensures var r := EngineFor(voiceId, engine, Listed(vs));
            var supported := LowerAll(vs[k].engines);
            (vs[k].engines == [] ==> r == None) &&
            (vs[k].engines != [] && Truthy(engine) && Lower(engine.value) in supported ==> r == engine) &&
            (vs[k].engines != [] && !(Truthy(engine) && Lower(engine.value) in supported) ==>
               (r == Some("neural") <==> "neural" in supported) &&
               (r == Some("standard") <==> "neural" !in supported && "standard" in supported) &&
               (r == None <==> "neural" !in supported && "standard" !in supported)) &&
            (r.Some? ==> Lower(r.value) in supported)
  {
    assert FirstWithId(vs, voiceId) == k;
    LowerLiteral();
  }
}
