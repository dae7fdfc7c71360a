/** The voice catalog (`PollyTTS.list_voices`) and the voice resolver
    (`PollyTTS.select_voice`). The remote `describe_voices` operation is given
    as the sequence of responses it returns. */
module Voices {
  import opened PyValues

  /** One catalog entry. A missing `Gender` reads as "" and missing
      `SupportedEngines` as [], as `v.get(key, default)` does. */
  datatype Voice = Voice(id: string, gender: string, languageCode: string, engines: seq<string>)

  /** The keyword arguments of one `describe_voices` call. */
  datatype DescribeRequest = DescribeRequest(languageCode: Option<string>, nextToken: Option<string>)

  /** What one `describe_voices` call gives back: a page, or an exception. */
  datatype DescribeResponse = Page(voices: seq<Voice>, nextToken: Option<string>) | DescribeFailed

  /** The outcome of a whole `list_voices` call. */
  datatype Listing = Listed(voices: seq<Voice>) | ListingFailed

  /** The `LanguageCode` parameter actually sent: only a truthy code is. */
  function LanguageParam(languageCode: Option<string>): Option<string> {
    if Truthy(languageCode) then languageCode else None
  }

  /** `resp.get("NextToken")` is truthy. */
  predicate HasMore(r: DescribeResponse) {
    r.Page? && Truthy(r.nextToken)
  }

  /** The service eventually answers without a continuation token (or fails). */
  predicate Terminates(rs: seq<DescribeResponse>) {
    exists k :: 0 <= k < |rs| && !HasMore(rs[k])
  }

  /** The index of the first response that ends the pagination. */
  function StopIndex(rs: seq<DescribeResponse>): (k: nat)
    requires Terminates(rs)
    ensures k < |rs| && !HasMore(rs[k])
    ensures forall j :: 0 <= j < k ==> HasMore(rs[j])
  {
    if !HasMore(rs[0]) then 0
    else
      assert Terminates(rs[1..]) by {
        var k :| 0 <= k < |rs| && !HasMore(rs[k]);
        assert rs[1..][k - 1] == rs[k];
      }
      StopIndex(rs[1..]) + 1
  }

  function PageVoices(r: DescribeResponse): seq<Voice> {
    if r.Page? then r.voices else []
  }

  function PageToken(r: DescribeResponse): Option<string> {
    if r.Page? then r.nextToken else None
  }

  /** The `Voices` of the first `n` responses, in page order. */
  function VoicesUpTo(rs: seq<DescribeResponse>, n: nat): seq<Voice>
    requires n <= |rs|
  {
    if n == 0 then [] else VoicesUpTo(rs, n - 1) + PageVoices(rs[n - 1])
  }

  /** The requests made when the first `n` responses carried a token: the first
      without a token, then one per such response, with its token. */
  function RequestsUpTo(lang: Option<string>, rs: seq<DescribeResponse>, n: nat): seq<DescribeRequest>
    requires n <= |rs|
  {
    if n == 0 then [DescribeRequest(lang, None)]
    else RequestsUpTo(lang, rs, n - 1) + [DescribeRequest(lang, PageToken(rs[n - 1]))]
  }

  /** One more page read: one more request, one more page of voices. */
  lemma PagesStep(lang: Option<string>, rs: seq<DescribeResponse>, i: nat)
    requires i + 2 <= |rs|
    ensures RequestsUpTo(lang, rs, i + 1) == RequestsUpTo(lang, rs, i) + [DescribeRequest(lang, PageToken(rs[i]))]
    ensures VoicesUpTo(rs, i + 2) == VoicesUpTo(rs, i + 1) + PageVoices(rs[i + 1])
  {
  }

  /** The paging loop of `list_voices`: it reads responses while they carry a
      `NextToken`, and returns the last response read with the requests sent
      and the voices gathered on the way. */
  method FetchPages(lang: Option<string>, responses: seq<DescribeResponse>)
    returns (last: DescribeResponse, sent: seq<DescribeRequest>, voices: seq<Voice>)
    requires Terminates(responses)
    ensures last == responses[StopIndex(responses)]
    ensures sent == RequestsUpTo(lang, responses, StopIndex(responses))
    ensures voices == VoicesUpTo(responses, StopIndex(responses) + 1)
  {
    ghost var stop := StopIndex(responses);
    sent := [DescribeRequest(lang, None)];
    var i := 0;
    last := responses[0];
    voices := PageVoices(last);
    while HasMore(last)
      invariant i <= stop < |responses|
      invariant last == responses[i]
      invariant sent == RequestsUpTo(lang, responses, i)
      invariant voices == VoicesUpTo(responses, i + 1)
      decreases stop - i
    {
      assert i != stop;
      PagesStep(lang, responses, i);
      sent := sent + [DescribeRequest(lang, PageToken(last))];
      i := i + 1;
      last := responses[i];
      voices := voices + PageVoices(last);
    }
    assert !(i < stop);
  }

  /** `list_voices`: keeps calling `describe_voices` while a `NextToken` comes
      back, and accumulates every page; a failing call fails the listing.
      `responses` are the answers the service gives, in order; `sent` are the
      requests made. */
  method ListVoices(languageCode: Option<string>, responses: seq<DescribeResponse>)
    returns (listing: Listing, sent: seq<DescribeRequest>)
    requires Terminates(responses)
    ensures sent == RequestsUpTo(LanguageParam(languageCode), responses, StopIndex(responses))
    ensures listing == if responses[StopIndex(responses)].DescribeFailed? then ListingFailed
                       else Listed(VoicesUpTo(responses, StopIndex(responses) + 1))
  {
    var lang := if Truthy(languageCode) then languageCode else None;
    var last, voices;
    last, sent, voices := FetchPages(lang, responses);
    listing := if last.DescribeFailed? then ListingFailed else Listed(voices);
  }

  /** The requests `list_voices` makes: `LanguageCode` only when truthy, no
      token first, then each page's token in turn; one request per page read. */
  lemma {:induction false} RequestsCarryTokens(lang: Option<string>, rs: seq<DescribeResponse>, n: nat)
    requires n <= |rs|
    ensures var sent := RequestsUpTo(lang, rs, n);
            |sent| == n + 1 && sent[0] == DescribeRequest(lang, None) &&
            forall i :: 0 < i <= n ==> sent[i] == DescribeRequest(lang, PageToken(rs[i - 1]))
  {
    if n > 0 {
      RequestsCarryTokens(lang, rs, n - 1);
    }
  }

  /** The listing is the concatenation of the pages' voices: every voice of
      every page read is in it, and nothing else. */
  lemma {:induction false} VoicesFromPages(rs: seq<DescribeResponse>, n: nat, v: Voice)
    requires n <= |rs|
    ensures v in VoicesUpTo(rs, n) <==> exists k :: 0 <= k < n && v in PageVoices(rs[k])
  {
    if n > 0 {
      VoicesFromPages(rs, n - 1, v);
    }
  }

  /** The voice used when no candidate remains. */
  const DefaultVoice: string := "Joanna"

  /** The gender filter: `v.get("Gender", "").lower() == gender.strip().lower()`,
      applied only when `gender` is truthy. */
  predicate GenderMatches(v: Voice, gender: Option<string>) {
    !Truthy(gender) || Lower(v.gender) == Lower(Strip(gender.value))
  }

  /** `"neural" in [e.lower() for e in v.get("SupportedEngines", [])]`. */
  predicate SupportsNeural(v: Voice) {
    exists i :: 0 <= i < |v.engines| && Lower(v.engines[i]) == "neural"
  }

  /** `[v for v in vs if keep(v)]`. */
  function Filter(vs: seq<Voice>, keep: Voice -> bool): (r: seq<Voice>)
    ensures |r| <= |vs|
    ensures r == [] <==> forall i :: 0 <= i < |vs| ==> !keep(vs[i])
  {
    if vs == [] then []
    else (if keep(vs[0]) then [vs[0]] else []) + Filter(vs[1..], keep)
  }

  /** `if gender: voices = [v for v in voices if <gender matches>]`. */
  function GenderCandidates(vs: seq<Voice>, gender: Option<string>): seq<Voice> {
    if Truthy(gender) then Filter(vs, v => GenderMatches(v, gender)) else vs
  }

  /** The first voice of `vs` that satisfies `p`, if any. */
  function FirstWhere(vs: seq<Voice>, p: Voice -> bool): Option<Voice> {
    if vs == [] then None
    else if p(vs[0]) then Some(vs[0])
    else FirstWhere(vs[1..], p)
  }

  /** The voice the resolver returns from its final candidates: the loop
      `for v in voices: if <neural>: return v["Id"]`, then
      `voices[0]["Id"] if voices else "Joanna"`. */
  function PickVoice(candidates: seq<Voice>): string {
    match FirstWhere(candidates, SupportsNeural)
    case Some(v) => v.id
    case None => if candidates != [] then candidates[0].id else DefaultVoice
  }

  /** The result of `select_voice`: the voice id, or None when a catalog listing
      raised, and the `LanguageCode` of each `list_voices` call made, in order. */
  datatype Selection = Selection(voiceId: Option<string>, lookups: seq<Option<string>>)

  /** `select_voice(preferred, gender, languageCode)`, where `catalog(c)` is what
      `list_voices` yields when it sends `LanguageCode` `c` (None: none sent). */
  function SelectVoice(preferred: Option<string>, gender: Option<string>, languageCode: Option<string>,
                       catalog: Option<string> -> Listing): (r: Selection)
    ensures Truthy(preferred) ==> r == Selection(Some(preferred.value), [])
  {
    if Truthy(preferred) then Selection(Some(preferred.value), [])
    else
      var lang := LanguageParam(languageCode);
      match catalog(lang)
      case ListingFailed => Selection(None, [lang])
      case Listed(vs) =>
        var first := GenderCandidates(vs, gender);
        if first != [] then Selection(Some(PickVoice(first)), [lang])
        else
          match catalog(None)
          case ListingFailed => Selection(None, [lang, None])
          case Listed(all) => Selection(Some(PickVoice(GenderCandidates(all, gender))), [lang, None])
  }

  /** `vs[i]` is the first voice in `vs` that satisfies both `keep` and `p`. */
  ghost predicate FirstOfBoth(vs: seq<Voice>, keep: Voice -> bool, p: Voice -> bool, i: int) {
    0 <= i < |vs| && keep(vs[i]) && p(vs[i]) &&
    forall j :: 0 <= j < i ==> !(keep(vs[j]) && p(vs[j]))
  }

  /** `vs[i]` is the first voice in `vs` that satisfies `keep`. */
  ghost predicate FirstOf(vs: seq<Voice>, keep: Voice -> bool, i: int) {
    0 <= i < |vs| && keep(vs[i]) && forall j :: 0 <= j < i ==> !keep(vs[j])
  }

  lemma FirstOfBothSkip(vs: seq<Voice>, keep: Voice -> bool, p: Voice -> bool, i: int)
    requires vs != [] && !(keep(vs[0]) && p(vs[0]))
    requires FirstOfBoth(vs[1..], keep, p, i)
    ensures FirstOfBoth(vs, keep, p, i + 1)
  {
    forall j | 0 <= j < i + 1 ensures !(keep(vs[j]) && p(vs[j])) {
      if j > 0 { assert vs[j] == vs[1..][j - 1]; }
    }
  }

  lemma NoneOfBothSkip(vs: seq<Voice>, keep: Voice -> bool, p: Voice -> bool)
    requires vs != [] && !(keep(vs[0]) && p(vs[0]))
    requires forall i :: 0 <= i < |vs| - 1 ==> !(keep(vs[1..][i]) && p(vs[1..][i]))
    ensures forall i :: 0 <= i < |vs| ==> !(keep(vs[i]) && p(vs[i]))
  {
    forall i | 0 <= i < |vs| ensures !(keep(vs[i]) && p(vs[i])) {
      if i > 0 { assert vs[i] == vs[1..][i - 1]; }
    }
  }

  /** Searching the filtered list finds the first voice of the whole list that
      passes both the filter and the search. */
  lemma {:induction false} FilterThenFirst(vs: seq<Voice>, keep: Voice -> bool, p: Voice -> bool)
    ensures FirstWhere(Filter(vs, keep), p).Some? ==>
              exists i :: FirstOfBoth(vs, keep, p, i) && vs[i] == FirstWhere(Filter(vs, keep), p).value
    ensures FirstWhere(Filter(vs, keep), p).None? ==>
              forall i :: 0 <= i < |vs| ==> !(keep(vs[i]) && p(vs[i]))
  {
    if vs != [] {
      var rest := Filter(vs[1..], keep);
      FilterThenFirst(vs[1..], keep, p);
      if keep(vs[0]) && p(vs[0]) {
        assert Filter(vs, keep) == [vs[0]] + rest;
        assert FirstOfBoth(vs, keep, p, 0);
      } else {
        if keep(vs[0]) {
          var f := Filter(vs, keep);
          assert f == [vs[0]] + rest;
          assert f[0] == vs[0] && f[1..] == rest;
          assert !p(f[0]);
          assert FirstWhere(f, p) == FirstWhere(f[1..], p);
        } else {
          assert Filter(vs, keep) == rest;
        }
        if FirstWhere(rest, p).Some? {
          var i :| FirstOfBoth(vs[1..], keep, p, i) && vs[1..][i] == FirstWhere(rest, p).value;
          FirstOfBothSkip(vs, keep, p, i);
        } else {
          NoneOfBothSkip(vs, keep, p);
        }
      }
    }
  }

  /** The head of the filtered list is the first voice that passes the filter. */
  lemma {:induction false} FilterHead(vs: seq<Voice>, keep: Voice -> bool)
    requires Filter(vs, keep) != []
    ensures exists i :: FirstOf(vs, keep, i) && vs[i] == Filter(vs, keep)[0]
  {
    var rest := Filter(vs[1..], keep);
    if keep(vs[0]) {
      assert Filter(vs, keep) == [vs[0]] + rest;
      assert FirstOf(vs, keep, 0);
    } else {
      assert Filter(vs, keep) == [] + rest;
      FilterHead(vs[1..], keep);
      var i :| FirstOf(vs[1..], keep, i) && vs[1..][i] == rest[0];
      forall j | 0 <= j < i + 1 ensures !keep(vs[j]) {
        if j > 0 { assert vs[j] == vs[1..][j - 1]; }
      }
      assert FirstOf(vs, keep, i + 1);
    }
  }

  lemma {:induction false} FilterKeepingAll(vs: seq<Voice>, keep: Voice -> bool)
    requires forall i :: 0 <= i < |vs| ==> keep(vs[i])
    ensures Filter(vs, keep) == vs
  {
    if vs != [] {
      FilterKeepingAll(vs[1..], keep);
    }
  }

  /** The resolver's choice among the catalog `vs`, read off the catalog order:
      the first voice that matches the gender and supports the neural engine,
      else the first voice that matches the gender. */
  ghost predicate ChosenFrom(vs: seq<Voice>, gender: Option<string>, id: string) {
    var keep := v => GenderMatches(v, gender);
    if exists i :: 0 <= i < |vs| && GenderMatches(vs[i], gender) && SupportsNeural(vs[i])
    then exists i :: FirstOfBoth(vs, keep, SupportsNeural, i) && vs[i].id == id
    else exists i :: FirstOf(vs, keep, i) && vs[i].id == id
  }

  /** Picking among the gender candidates follows the catalog order. */
  lemma PickFollowsCatalogOrder(vs: seq<Voice>, gender: Option<string>)
    requires exists i :: 0 <= i < |vs| && GenderMatches(vs[i], gender)
    ensures GenderCandidates(vs, gender) != []
    ensures ChosenFrom(vs, gender, PickVoice(GenderCandidates(vs, gender)))
  {
    var keep := v => GenderMatches(v, gender);
    if !Truthy(gender) {
      FilterKeepingAll(vs, keep);
    }
    var cs := GenderCandidates(vs, gender);
    assert cs == Filter(vs, keep);
    FilterThenFirst(vs, keep, SupportsNeural);
    if FirstWhere(cs, SupportsNeural).None? {
      FilterHead(vs, keep);
    }
  }

  /** When the language-filtered catalog has a voice of the requested gender,
      the resolver lists once and chooses from it. */
  lemma SelectFromLanguageCatalog(preferred: Option<string>, gender: Option<string>,
                                  languageCode: Option<string>, catalog: Option<string> -> Listing)
    requires !Truthy(preferred)
    requires catalog(LanguageParam(languageCode)).Listed?
    requires var vs := catalog(LanguageParam(languageCode)).voices;
             exists i :: 0 <= i < |vs| && GenderMatches(vs[i], gender)
    ensures var r := SelectVoice(preferred, gender, languageCode, catalog);
            r.lookups == [LanguageParam(languageCode)] && r.voiceId.Some? &&
            ChosenFrom(catalog(LanguageParam(languageCode)).voices, gender, r.voiceId.value)
  {
    PickFollowsCatalogOrder(catalog(LanguageParam(languageCode)).voices, gender);
  }

  /** When no voice of the language-filtered catalog remains, the resolver lists
      the global catalog, drops the language and keeps only the gender filter;
      with nothing left there either it returns the default voice. */
  lemma SelectFallsBackToGlobalCatalog(preferred: Option<string>, gender: Option<string>,
                                       languageCode: Option<string>, catalog: Option<string> -> Listing)
    requires !Truthy(preferred)
    requires catalog(LanguageParam(languageCode)).Listed?
    requires var vs := catalog(LanguageParam(languageCode)).voices;
             forall i :: 0 <= i < |vs| ==> !GenderMatches(vs[i], gender)
    requires catalog(None).Listed?
    ensures var r := SelectVoice(preferred, gender, languageCode, catalog);
            var all := catalog(None).voices;
            r.lookups == [LanguageParam(languageCode), None] && r.voiceId.Some? &&
            ((exists i :: 0 <= i < |all| && GenderMatches(all[i], gender)) ==> ChosenFrom(all, gender, r.voiceId.value)) &&
            ((forall i :: 0 <= i < |all| ==> !GenderMatches(all[i], gender)) ==> r.voiceId.value == DefaultVoice)
  {
    var vs := catalog(LanguageParam(languageCode)).voices;
    var all := catalog(None).voices;
    if vs != [] && !Truthy(gender) {
      assert GenderMatches(vs[0], gender);
    }
    assert GenderCandidates(vs, gender) == [];
    if exists i :: 0 <= i < |all| && GenderMatches(all[i], gender) {
      PickFollowsCatalogOrder(all, gender);
    } else {
      if all != [] && !Truthy(gender) {
        assert GenderMatches(all[0], gender);
      }
      assert GenderCandidates(all, gender) == [];
    }
  }

  /** A listing that raises makes the whole resolution fail. */
  lemma SelectFailsWithCatalog(preferred: Option<string>, gender: Option<string>,
                               languageCode: Option<string>, catalog: Option<string> -> Listing)
    requires !Truthy(preferred)
    ensures var r := SelectVoice(preferred, gender, languageCode, catalog);
            r.voiceId.None? <==>
              (catalog(LanguageParam(languageCode)).ListingFailed? ||
               (catalog(None).ListingFailed? && r.lookups == [LanguageParam(languageCode), None]))
  {
  }
}
