/**
 * The speaker-recognition client (`core.utils.voiceprint_provider.VoiceprintProvider`):
 * how it reads its configured URL and speaker strings, and how it maps the
 * recognition service's answer to a speaker name. The HTTP request itself is
 * a parameter: what the service answered.
 */
module Voiceprint {
  import opened Wrappers
  import opened Text

  /** The configured URL after `urlparse` and `parse_qs`: scheme, network location and the values of each query key. */
  datatype ParsedUrl = ParsedUrl(scheme: string, netloc: string, query: map<string, seq<string>>)

  /** A speaker of `speaker_map`: `{"name", "description"}`. */
  datatype Speaker = Speaker(name: string, description: string)

  /** What the recognition request gave: an HTTP answer with the `speaker_id` of its JSON body, or an exception (a timeout among them). */
  datatype IdentifyResponse = HttpResponse(status: int, speakerId: Option<string>) | RequestFailed

  /** The name returned for a speaker the map does not know. */
  const UnknownSpeaker: string := "未知说话人"

  /** The path of the identification endpoint on the service. */
  const IdentifyPath: string := "/voiceprint/identify"

  /**
   * `parse_qs(query).get('key', [''])[0]`. (`parse_qs` never gives a key
   * an empty list of values; the model reads such a list as no key.)
   */
  function QueryKey(url: ParsedUrl): (key: string)
    ensures key != [] ==> "key" in url.query && url.query["key"] != [] && key == url.query["key"][0]
    ensures "key" in url.query && url.query["key"] != [] ==> key == url.query["key"][0]
    ensures "key" !in url.query ==> key == []
  {
    if "key" in url.query && url.query["key"] != [] then url.query["key"][0] else ""
  }

  // ---------------------------------------------------------------------------
  // Speaker strings
  // ---------------------------------------------------------------------------

  /** The speaker id of a speaker string: the stripped text before its first comma. */
  function SpeakerId(s: string): string {
    Strip(FirstField(s, ','))
  }

  /** A speaker id holds no comma and has no whitespace at either end. */
  lemma SpeakerIdShape(s: string)
    ensures ',' !in SpeakerId(s)
    ensures var id := SpeakerId(s); id != [] ==> !IsWhitespace(id[0]) && !IsWhitespace(id[|id| - 1])
  {
    StripKeepsAbsent(FirstField(s, ','), ',');
  }

  /** The id of `a + "," + b` is the stripped `a` whenever `a` holds no comma: the rest never matters. */
  lemma SpeakerIdOfField(a: string, b: string)
    requires ',' !in a
    ensures SpeakerId(a + [','] + b) == Strip(a)
  {
    var s := a + [','] + b;
    var i := Find(s, ',');
    assert s[|a|] == ',';
    assert forall k :: 0 <= k < |a| ==> s[k] == a[k];
    assert i == |a|;
    assert s[..i] == a;
  }

  /** `speaker_ids`: one id per speaker string, in order. */
  function SpeakerIds(speakers: seq<string>): seq<string> {
    seq(|speakers|, k requires 0 <= k < |speakers| => SpeakerId(speakers[k]))
  }

  lemma SpeakerIdsPrefix(speakers: seq<string>, i: nat)
    requires i < |speakers|
    ensures SpeakerIds(speakers)[..i + 1] == SpeakerIds(speakers)[..i] + [SpeakerId(speakers[i])]
  {
    var ids := SpeakerIds(speakers);
    assert ids[i] == SpeakerId(speakers[i]);
    assert ids[..i + 1] == ids[..i] + [ids[i]];
  }

  /**
   * The entry `_parse_speakers` makes of a speaker string: `split(",", 2)`
   * must give three fields (id, name, description), each stripped; the
   * description keeps any further commas.
   */
  function Entry(s: string): Option<(string, Speaker)> {
    var parts := SplitN(s, ',', 2);
    if |parts| >= 3 then Some((Strip(parts[0]), Speaker(Strip(parts[1]), Strip(parts[2])))) else None
  }

  /**
   * Two splits that give three fields cut the string at its first two
   * commas: the first two fields hold no comma and the third is the whole
   * rest, further commas included.
   */
  lemma SplitTwiceShape(s: string)
    requires |SplitN(s, ',', 2)| == 3
    ensures var parts := SplitN(s, ',', 2);
      && s == parts[0] + [','] + parts[1] + [','] + parts[2]
      && ',' !in parts[0] && ',' !in parts[1]
  {
    var i, j := SplitTwiceCuts(s);
    var rest := s[i + 1..];
    SplitAround(s, i);
    SplitAround(rest, j);
    assert forall k :: 0 <= k < i ==> s[..i][k] == s[k];
    assert forall k :: 0 <= k < j ==> rest[..j][k] == rest[k];
  }

  /** Where two splits cut: at the first comma `i`, then at the first comma `j` after it. */
  lemma SplitTwiceCuts(s: string) returns (i: nat, j: nat)
    requires |SplitN(s, ',', 2)| == 3
    ensures i < |s| && i == Find(s, ',') && j < |s| - i - 1 && j == Find(s[i + 1..], ',')
    ensures SplitN(s, ',', 2) == [s[..i], s[i + 1..][..j], s[i + 1..][j + 1..]]
  {
    var f := Find(s, ',');
    var rest := s[f + 1..];
    var tail := SplitN(rest, ',', 1);
    assert SplitN(s, ',', 2) == [s[..f]] + tail;
    var g := Find(rest, ',');
    assert tail == [rest[..g], rest[g + 1..]];
    i, j := f, g;
  }

  /** A speaker string with an entry has two commas, and the entry's id is the string's speaker id. */
  lemma EntryShape(s: string)
    requires Entry(s).Some?
    ensures var parts := SplitN(s, ',', 2);
      && |parts| == 3
      && s == parts[0] + [','] + parts[1] + [','] + parts[2]
      && ',' !in parts[0] && ',' !in parts[1]
      && Entry(s).value.0 == SpeakerId(s)
  {
    SplitTwiceShape(s);
    SplitNFirst(s, ',', 2);
  }

  /** The entries of the speaker strings, in order. */
  function Entries(speakers: seq<string>): seq<Option<(string, Speaker)>> {
    seq(|speakers|, k requires 0 <= k < |speakers| => Entry(speakers[k]))
  }

  lemma EntriesPrefix(speakers: seq<string>, i: nat)
    requires i < |speakers|
    ensures Entries(speakers)[..i + 1] == Entries(speakers)[..i] + [Entry(speakers[i])]
  {
  }

  /** The map the entries build in order, a later entry for the same id replacing an earlier one. */
  function Collect(entries: seq<Option<(string, Speaker)>>): map<string, Speaker> {
    if entries == [] then map[]
    else
      var m := Collect(entries[..|entries| - 1]);
      match entries[|entries| - 1]
      case None => m
      case Some(e) => m[e.0 := e.1]
  }

  /** `_parse_speakers`: the entries of the speaker strings, collected in order. */
  function SpeakerMap(speakers: seq<string>): map<string, Speaker> {
    Collect(Entries(speakers))
  }

  /** Entry `e` sets `id`. */
  predicate Defines(e: Option<(string, Speaker)>, id: string) {
    e.Some? && e.value.0 == id
  }

  /** An id is collected exactly when some entry sets it. */
  lemma {:induction false} CollectDomain(entries: seq<Option<(string, Speaker)>>, id: string)
    ensures id in Collect(entries) <==> exists k :: 0 <= k < |entries| && Defines(entries[k], id)
  {
    if entries != [] {
      var n := |entries| - 1;
      var init := entries[..n];
      CollectDomain(init, id);
      assert forall k :: 0 <= k < n ==> init[k] == entries[k];
      if exists k :: 0 <= k < |entries| && Defines(entries[k], id) {
        var k :| 0 <= k < |entries| && Defines(entries[k], id);
        if k < n {
          assert Defines(init[k], id);
        }
      }
    }
  }

  /** A collected id maps to the speaker of the LAST entry that sets it. */
  lemma {:induction false} CollectLastWins(entries: seq<Option<(string, Speaker)>>, k: nat, id: string)
    requires k < |entries| && Defines(entries[k], id)
    requires forall j :: k < j < |entries| ==> !Defines(entries[j], id)
    ensures id in Collect(entries) && Collect(entries)[id] == entries[k].value.1
  {
    var n := |entries| - 1;
    var init := entries[..n];
    if k < n {
      assert forall j :: k < j < n ==> init[j] == entries[j];
      CollectLastWins(init, k, id);
      assert !Defines(entries[n], id);
    }
  }

  /** Every speaker of the map is among the ids sent with a recognition request. */
  lemma MappedSpeakersAreRequested(speakers: seq<string>)
    ensures forall id :: id in SpeakerMap(speakers) ==> id in SpeakerIds(speakers)
  {
    forall id | id in SpeakerMap(speakers)
      ensures id in SpeakerIds(speakers)
    {
      CollectDomain(Entries(speakers), id);
      var k :| 0 <= k < |speakers| && Defines(Entries(speakers)[k], id);
      EntryShape(speakers[k]);
      assert SpeakerIds(speakers)[k] == id;
    }
  }

  // ---------------------------------------------------------------------------
  // The provider
  // ---------------------------------------------------------------------------

  class VoiceprintProvider {
    var originalUrl: string
    var speakers: seq<string>
    var speakerMap: map<string, Speaker>
    var apiUrl: Option<string>
    var apiKey: Option<string>
    var speakerIds: seq<string>
    var enabled: bool

    /**
     * `VoiceprintProvider(config)` with `config["url"]` (empty when not
     * configured) and `config["speakers"]`; `parse` is `urlparse` with
     * `parse_qs`. Without a URL, or without a `key` in its query, the
     * provider is disabled and has no endpoint. Otherwise the endpoint is
     * the URL's scheme and host with the identification path, one id is
     * taken from every speaker string, and the provider is enabled as soon
     * as one speaker string is given.
     */
    constructor(url: string, parse: string -> ParsedUrl, speakers: seq<string>)
      ensures originalUrl == url && this.speakers == speakers
      ensures speakerMap == SpeakerMap(speakers)
      ensures apiKey == if url == [] then None else Some(QueryKey(parse(url)))
      ensures apiUrl.Some? <==> url != [] && QueryKey(parse(url)) != []
      ensures apiUrl.Some? ==> apiUrl.value == parse(url).scheme + "://" + parse(url).netloc + IdentifyPath
      ensures speakerIds == if apiUrl.Some? then SpeakerIds(speakers) else []
      ensures enabled <==> apiUrl.Some? && speakers != []
      ensures enabled <==> Active()
    {
      originalUrl := url;
      this.speakers := speakers;
      speakerMap := map[];
      apiUrl := None;
      apiKey := None;
      speakerIds := [];
      enabled := false;
      new;
      speakerMap := ParseSpeakers();
      if url == [] {
        enabled := false;
      } else {
        var parsed := parse(url);
        var baseUrl := parsed.scheme + "://" + parsed.netloc;
        apiKey := Some(QueryKey(parsed));
        if apiKey.value == [] {
          enabled := false;
        } else {
          apiUrl := Some(baseUrl + IdentifyPath);
          CollectSpeakerIds();
          enabled := speakerIds != [];
        }
      }
    }

    /** The loop of the constructor over the speaker strings: the id of each is appended, in order. */
    method CollectSpeakerIds()
      modifies this`speakerIds
      ensures speakerIds == old(speakerIds) + SpeakerIds(speakers)
    {
      for i := 0 to |speakers|
        invariant speakerIds == old(speakerIds) + SpeakerIds(speakers)[..i]
      {
        var parts := SplitN(speakers[i], ',', 2);
        SplitNFirst(speakers[i], ',', 2);
        if |parts| >= 1 {
          var speakerId := Strip(parts[0]);
          speakerIds := speakerIds + [speakerId];
        }
        SpeakerIdsPrefix(speakers, i);
      }
      assert SpeakerIds(speakers)[..|speakers|] == SpeakerIds(speakers);
    }

    /** `_parse_speakers`: the loop over the speaker strings filling the map. */
    method ParseSpeakers() returns (parsed: map<string, Speaker>)
      ensures parsed == SpeakerMap(speakers)
    {
      parsed := map[];
      for i := 0 to |speakers|
        invariant parsed == Collect(Entries(speakers)[..i])
      {
        var parts := SplitN(speakers[i], ',', 2);
        ghost var before := Entries(speakers)[..i];
        ghost var entry := Entry(speakers[i]);
        if |parts| >= 3 {
          var speakerId, name, description := Strip(parts[0]), Strip(parts[1]), Strip(parts[2]);
          parsed := parsed[speakerId := Speaker(name, description)];
          assert entry == Some((speakerId, Speaker(name, description)));
        }
        EntriesPrefix(speakers, i);
        assert (before + [entry])[..i] == before;
      }
      assert Entries(speakers)[..|speakers|] == Entries(speakers);
    }

    /** `speaker_id and speaker_id in self.speaker_map`: a non-empty id of the map. */
    predicate Known(speakerId: Option<string>)
      reads this
    {
      speakerId.Some? && speakerId.value != [] && speakerId.value in speakerMap
    }

    /** Recognition may be requested: enabled, with an endpoint and a non-empty key. */
    predicate Active()
      reads this
    {
      enabled && apiUrl.Some? && apiKey.Some? && apiKey.value != []
    }

    /**
     * `identify_speaker` given what the service answered. Inactive, it gives
     * `None` whatever the answer (no request is made); active, it gives a
     * name exactly on HTTP 200: the mapped speaker's name when the answer
     * names a known id, otherwise the unknown-speaker text.
     */
    function IdentifySpeaker(response: IdentifyResponse): (r: Option<string>)
      reads this
      ensures r.Some? <==> Active() && response.HttpResponse? && response.status == 200
      ensures r.Some? && Known(response.speakerId) ==> r.value == speakerMap[response.speakerId.value].name
      ensures r.Some? && !Known(response.speakerId) ==> r.value == UnknownSpeaker
    {
      if !enabled || apiUrl.None? || apiKey.None? || apiKey.value == [] then None
      else match response
        case RequestFailed => None
        case HttpResponse(status, speakerId) =>
          if status == 200 then
            if Known(speakerId) then Some(speakerMap[speakerId.value].name)
            else Some(UnknownSpeaker)
          else None
    }
  }

  /**
   * A configured speaker is recognised by name: when the last speaker string
   * that defines a non-empty id names speaker `name`, an answer naming that
   * id gives `name`.
   */
  lemma ConfiguredSpeakerIsNamed(p: VoiceprintProvider, k: nat, id: string)
    requires p.Active() && p.speakerMap == SpeakerMap(p.speakers) && id != []
    requires k < |p.speakers| && Defines(Entry(p.speakers[k]), id)
    requires forall j :: k < j < |p.speakers| ==> !Defines(Entry(p.speakers[j]), id)
    ensures p.IdentifySpeaker(HttpResponse(200, Some(id))) == Some(Entry(p.speakers[k]).value.1.name)
  {
    var entries := Entries(p.speakers);
    assert forall j :: k < j < |p.speakers| ==> entries[j] == Entry(p.speakers[j]);
    CollectLastWins(entries, k, id);
  }
}
