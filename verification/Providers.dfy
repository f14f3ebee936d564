/** Configured AI providers: HTTP endpoints and rooms. */
module Providers {
  import opened Wrappers
  import opened Text

  datatype ModelRef = ModelRef(providerId: string, model: string)

  datatype Provider = Provider(
    id: string,
    name: string,
    baseUrl: string,
    apiKey: string,
    enabled: bool,
    models: seq<string>,
    modelsFetchedAt: Option<string>,
    provide: bool,
    shared: seq<ModelRef>)

  const ROOM_SCHEME := "mist-network://"

  function NewProvider(id: string, name: string, baseUrl: string, apiKey: string): Provider {
    Provider(id, name, baseUrl, apiKey, true, [], None, false, [])
  }

  /** The room that a provider stands for, if its URL names one. */
  function RoomOf(p: Provider): Option<string> {
    if ROOM_SCHEME <= p.baseUrl && !IsBlank(p.baseUrl[|ROOM_SCHEME|..]) then Some(p.baseUrl[|ROOM_SCHEME|..]) else None
  }

  lemma RoomOfUrl(p: Provider, room: string)
    requires p.baseUrl == ROOM_SCHEME + room && !IsBlank(room)
    ensures RoomOf(p) == Some(room)
  {
    hide IsBlank;
    assert p.baseUrl[|ROOM_SCHEME|..] == room;
  }

  /** A provider stands for a room exactly when its URL is the scheme and a room that is not blank. */
  lemma RoomOfMeans(p: Provider, room: string)
    ensures RoomOf(p) == Some(room) <==> p.baseUrl == "mist-network://" + room && Trim(room) != ""
  {
    hide Trim;
    if RoomOf(p) == Some(room) {
      assert p.baseUrl == p.baseUrl[..15] + p.baseUrl[15..];
    } else if p.baseUrl == "mist-network://" + room {
      assert p.baseUrl[15..] == room;
    }
  }

  /** A new provider is on, and offers and shares nothing yet. */
  lemma NewIsPlain(id: string, name: string, url: string, key: string)
    ensures var p := NewProvider(id, name, url, key);
            && p.id == id && p.name == name && p.baseUrl == url && p.apiKey == key && p.enabled && !p.provide
            && p.models == [] && p.modelsFetchedAt.None? && p.shared == []
  {}

  /** The first provider for a room. */
  function FirstFor(ps: seq<Provider>, room: string): Option<Provider> {
    if ps == [] then None
    else if RoomOf(ps[0]) == Some(room) then Some(ps[0])
    else FirstFor(ps[1..], room)
  }

  /** The room is a matter of the URL alone. */
  lemma SameRoom(p: Provider, q: Provider)
    requires p.baseUrl == q.baseUrl
    ensures RoomOf(p) == RoomOf(q)
  {}
}
