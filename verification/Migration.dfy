/** Migration of legacy configuration fields, run once when a configuration is loaded. */
module Migration {
  import opened Wrappers
  import opened Text
  import opened Decimal
  import opened Providers

  const DEFAULT_ROOM := "mistl-mailbox-v1"

  datatype Preset = Preset(id: string, providerId: string, model: string, effort: Option<string>,
      voice: Option<string>, langVoices: map<string, string>)

  datatype Voice = Voice(providerId: string, model: string, voice: Option<string>, langVoices: map<string, string>,
      speed: Option<real>)

  /** The AI section: new fields, then the legacy ones. */
  datatype Ai = Ai(
    defaultRef: Option<ModelRef>,
    defaultEffort: Option<string>,
    tts: Option<Voice>,
    stt: Option<ModelRef>,
    providers: seq<Provider>,
    roomId: Option<string>,
    upstreamUrl: Option<string>,
    upstreamApiKey: Option<string>,
    defaultModel: Option<string>,
    temperature: Option<real>,
    advertised: seq<string>,
    defaultPresetId: string,
    ttsPresetId: string,
    sttPresetId: string,
    presets: seq<Preset>)

  /** Summaries and translations have a reasoning effort, speech has a voice. */
  datatype Transform =
    | TextTransform(model: Option<ModelRef>, presetId: string, effort: Option<string>)
    | SpeechTransform(model: Option<ModelRef>, presetId: string, voice: Option<string>)

  datatype Stream = Stream(room: Option<string>, relayRoom: Option<string>, shareRoom: Option<string>)

  datatype ChatRelay = ChatRelay(rooms: seq<string>, enabled: bool)

  datatype Settings = Settings(ai: Ai, pipelines: seq<seq<Transform>>, stream: Stream, relay: ChatRelay,
      mailbox: Option<ChatRelay>)

  // ---- Fresh ids ----------------------------------------------------------------------------

  predicate Taken(ps: seq<Provider>, id: string) { exists p | p in ps :: p.id == id }

  function Candidate(base: string, n: nat): string { base + "-" + Numeral(n) }

  /** `base` and its numbered forms below `n` are all in use. */
  predicate TakenBelow(ps: seq<Provider>, base: string, n: nat) {
    Taken(ps, base) && forall m | 2 <= m < n :: Taken(ps, Candidate(base, m))
  }

  lemma CandidatesDiffer(base: string, m: nat, n: nat)
    ensures Candidate(base, m) != base
    ensures m != n ==> Candidate(base, m) != Candidate(base, n)
  {
    hide Numeral;
    var a, b := Candidate(base, m), Candidate(base, n);
    assert a[|base| + 1..] == Numeral(m) && b[|base| + 1..] == Numeral(n);
    assert |a| > |base|;
    if a == b {
      NumeralIsInjective(m, n);
    }
  }

  /** The ids tried before `n`. */
  ghost function Tried(base: string, n: nat): set<string> {
    if n <= 2 then {base} else Tried(base, n - 1) + {Candidate(base, n - 1)}
  }

  lemma {:induction false} NotTried(base: string, n: nat, m: nat)
    requires m >= n >= 2
    ensures Candidate(base, m) !in Tried(base, n)
    decreases n
  {
    hide Candidate;
    CandidatesDiffer(base, m, n - 1);
    if n > 2 {
      NotTried(base, n - 1, m);
    }
  }

  lemma {:induction false} TriedSize(base: string, n: nat)
    requires n >= 2
    ensures |Tried(base, n)| == n - 1
    decreases n
  {
    hide Candidate;
    if n > 2 {
      TriedSize(base, n - 1);
      NotTried(base, n - 1, n - 1);
    }
  }

  lemma {:induction false} TriedAreTaken(ps: seq<Provider>, base: string, n: nat)
    requires n >= 2 && TakenBelow(ps, base, n)
    ensures forall id | id in Tried(base, n) :: Taken(ps, id)
    decreases n
  {
    hide Candidate, Taken;
    if n > 2 {
      TriedAreTaken(ps, base, n - 1);
    }
  }

  ghost function IdSet(ps: seq<Provider>): set<string> { set p | p in ps :: p.id }

  lemma {:induction false} FewIds(ps: seq<Provider>)
    ensures |IdSet(ps)| <= |ps|
  {
    if ps != [] {
      FewIds(ps[1..]);
      assert forall p :: p in ps <==> p == ps[0] || p in ps[1..];
      assert IdSet(ps) == IdSet(ps[1..]) + {ps[0].id};
    } else {
      assert IdSet(ps) == {};
    }
  }

  /** The search ends within one try more than there are providers. */
  lemma TakenAreFew(ps: seq<Provider>, base: string, n: nat)
    requires n >= 2 && TakenBelow(ps, base, n)
    ensures n <= |ps| + 1
  {
    hide Candidate;
    TriedSize(base, n);
    TriedAreTaken(ps, base, n);
    FewIds(ps);
    forall id | id in Tried(base, n) ensures id in IdSet(ps) {
      assert Taken(ps, id);
    }
    SubsetIsNoLarger(Tried(base, n), IdSet(ps));
  }

  function UniqueFrom(ps: seq<Provider>, base: string, n: nat): (r: string)
    requires n >= 2 && TakenBelow(ps, base, n)
    ensures !Taken(ps, r)
    ensures exists m | 2 <= m <= |ps| + 1 :: r == Candidate(base, m)
    decreases |ps| + 2 - n
  {
    TakenAreFew(ps, base, n);
    if !Taken(ps, Candidate(base, n)) then Candidate(base, n) else UniqueFrom(ps, base, n + 1)
  }

  /** An id that no provider has. */
  function UniqueId(ps: seq<Provider>, base: string): (r: string)
    ensures !Taken(ps, r)
    ensures r == base || exists m | 2 <= m <= |ps| + 1 :: r == Candidate(base, m)
  {
    if !Taken(ps, base) then base else UniqueFrom(ps, base, 2)
  }

  method UniqueProviderId(ps: seq<Provider>, base: string) returns (r: string)
    ensures r == UniqueId(ps, base)
  {
    hide Numeral, Candidate, Taken;
    if !Taken(ps, base) {
      return base;
    }
    var n: nat := 2;
    while true
      invariant n >= 2 && TakenBelow(ps, base, n)
      invariant UniqueId(ps, base) == UniqueFrom(ps, base, n)
      decreases |ps| + 2 - n
    {
      TakenAreFew(ps, base, n);
      var candidate := Candidate(base, n);
      if !Taken(ps, candidate) {
        return candidate;
      }
      n := n + 1;
    }
  }

  // ---- Upstream fields ----------------------------------------------------------------------

  function TrimSlashes(s: string): string {
    if s != "" && s[|s| - 1] == '/' then TrimSlashes(s[..|s| - 1]) else s
  }

  function NormalizeUrl(url: string): string { TrimSlashes(Trim(url)) }

  function FindUpstream(ps: seq<Provider>, url: string, key: string): Option<Provider> {
    if ps == [] then None
    else if NormalizeUrl(ps[0].baseUrl) == url && ps[0].apiKey == key then Some(ps[0])
    else FindUpstream(ps[1..], url, key)
  }

  function FindPreset(presets: seq<Preset>, id: string): (r: Option<Preset>)
    ensures r.Some? ==> r.value in presets && r.value.id == id
    ensures r.None? ==> forall p | p in presets :: p.id != id
  {
    if presets == [] then None
    else if presets[0].id == id then Some(presets[0])
    else FindPreset(presets[1..], id)
  }

  function MigrateUpstream(ai: Ai): (Ai, bool) {
    var url := Trim(ai.upstreamUrl.GetOr(""));
    if url == "" then (ai, false)
    else
      var key := ai.upstreamApiKey.GetOr("");
      var found := FindUpstream(ai.providers, NormalizeUrl(url), key);
      var id := if found.Some? then found.value.id else UniqueId(ai.providers, "default");
      var providers := if found.Some? then ai.providers else ai.providers + [NewProvider(id, "Default", url, key)];
      var presets := if FindPreset(ai.presets, "default").Some? then ai.presets
                     else ai.presets + [Preset("default", id, ai.defaultModel.GetOr(""), None, None, map[])];
      (ai.(providers := providers, presets := presets,
           defaultPresetId := if IsBlank(ai.defaultPresetId) then "default" else ai.defaultPresetId), true)
  }

  // ---- Presets ------------------------------------------------------------------------------

  function RefOf(p: Preset): ModelRef { ModelRef(p.providerId, p.model) }

  function MapOption<A, B>(o: Option<A>, f: A -> B): Option<B> {
    match o
    case None => None
    case Some(a) => Some(f(a))
  }

  function EffortOf(p: Option<Preset>): Option<string> { if p.Some? then p.value.effort else None }

  function VoiceOf(p: Option<Preset>): Option<string> { if p.Some? then p.value.voice else None }

  /** A transform with its preset resolved; an unknown preset stays visible as a model of no provider. */
  function MigrateTransform(presets: seq<Preset>, t: Transform): Transform {
    if t.presetId == "" then t
    else
      var preset := FindPreset(presets, t.presetId);
      var model := t.model.Or<ModelRef>(Some(if preset.Some? then RefOf(preset.value) else ModelRef("", t.presetId)));
      match t
      case TextTransform(_, _, effort) => TextTransform(model, "", effort.Or<string>(EffortOf(preset)))
      case SpeechTransform(_, _, voice) => SpeechTransform(model, "", voice.Or<string>(VoiceOf(preset)))
  }

  function MigrateTransforms(presets: seq<Preset>, ts: seq<Transform>): (r: seq<Transform>)
    ensures |r| == |ts|
  {
    seq(|ts|, i requires 0 <= i < |ts| => MigrateTransform(presets, ts[i]))
  }

  function MigratePipelines(presets: seq<Preset>, ps: seq<seq<Transform>>): (r: seq<seq<Transform>>)
    ensures |r| == |ps|
  {
    seq(|ps|, i requires 0 <= i < |ps| => MigrateTransforms(presets, ps[i]))
  }

  predicate NamesPreset(ts: seq<Transform>) { exists t | t in ts :: t.presetId != "" }

  predicate UsesPreset(ps: seq<seq<Transform>>) { exists ts | ts in ps :: NamesPreset(ts) }

  // ---- The room that was advertised in ------------------------------------------------------

  function FindById(ps: seq<Provider>, id: string): (r: Option<Provider>)
    ensures r.Some? ==> r.value in ps && r.value.id == id
  {
    if ps == [] then None else if ps[0].id == id then Some(ps[0]) else FindById(ps[1..], id)
  }

  function FindByModel(presets: seq<Preset>, model: string): Option<Preset> {
    if presets == [] then None
    else if presets[0].model == model then Some(presets[0])
    else FindByModel(presets[1..], model)
  }

  /** The reference for an advertised name: a preset of a provider that exists and is no room. */
  function AdvertisedRef(presets: seq<Preset>, ps: seq<Provider>, name: string): Option<ModelRef> {
    match FindPreset(presets, name).Or<Preset>(FindByModel(presets, name))
    case None => None
    case Some(preset) =>
      match FindById(ps, preset.providerId)
      case None => None
      case Some(p) => if RoomOf(p).Some? then None else Some(RefOf(preset))
  }

  function AdvertisedRefs(presets: seq<Preset>, ps: seq<Provider>, names: seq<string>): seq<ModelRef> {
    if names == [] then []
    else
      (match AdvertisedRef(presets, ps, names[0]) case Some(r) => [r] case None => [])
        + AdvertisedRefs(presets, ps, names[1..])
  }

  function IndexOfUrl(ps: seq<Provider>, url: string): (k: nat)
    ensures k <= |ps|
    ensures k < |ps| ==> ps[k].baseUrl == url
    ensures forall i | 0 <= i < k :: ps[i].baseUrl != url
  {
    if ps == [] || ps[0].baseUrl == url then 0 else IndexOfUrl(ps[1..], url) + 1
  }

  function LegacyRoom(ai: Ai): Option<string> {
    if ai.roomId.Some? && !IsBlank(ai.roomId.value) then ai.roomId else None
  }

  predicate MovesRoom(ai: Ai) { LegacyRoom(ai).Some? || ai.advertised != [] }

  /** The providers with the legacy room among them, and its place. */
  function WithRoom(ai: Ai): (r: (seq<Provider>, nat))
    ensures r.1 < |r.0|
  {
    var room := LegacyRoom(ai).GetOr(DEFAULT_ROOM);
    var url := ROOM_SCHEME + room;
    var k := IndexOfUrl(ai.providers, url);
    if k < |ai.providers| then (ai.providers, k)
    else (ai.providers + [NewProvider(UniqueId(ai.providers, "room"), room, url, "")], k)
  }

  /** The room shares what was advertised. */
  function MigrateRoom(ai: Ai): seq<Provider> {
    if !MovesRoom(ai) then ai.providers
    else
      var (ps, k) := WithRoom(ai);
      var p := ps[k];
      ps[k := p.(shared := if p.shared == [] then AdvertisedRefs(ai.presets, ps, ai.advertised) else p.shared,
                 provide := p.provide || ai.advertised != [])]
  }

  predicate HasLegacyRefs(ai: Ai) {
    || ai.roomId.Some? || ai.presets != [] || ai.defaultPresetId != "" || ai.ttsPresetId != "" || ai.sttPresetId != ""
    || ai.advertised != [] || ai.upstreamUrl.Some? || ai.upstreamApiKey.Some? || ai.defaultModel.Some?
    || ai.temperature.Some?
  }

  function NewVoice(p: Preset): Voice { Voice(p.providerId, p.model, p.voice, p.langVoices, None) }

  function MigrateRefs(ai: Ai): Ai {
    var preset := FindPreset(ai.presets, ai.defaultPresetId);
    Ai(ai.defaultRef.Or<ModelRef>(MapOption(preset, RefOf)),
       ai.defaultEffort.Or<string>(EffortOf(preset)),
       ai.tts.Or<Voice>(MapOption(FindPreset(ai.presets, ai.ttsPresetId), NewVoice)),
       ai.stt.Or<ModelRef>(MapOption(FindPreset(ai.presets, ai.sttPresetId), RefOf)),
       MigrateRoom(ai),
       None, None, None, None, None, [], "", "", "", [])
  }

  // ---- The other sections -------------------------------------------------------------------

  function NonBlank(s: Option<string>): Option<string> { if s.Some? && !IsBlank(s.value) then s else None }

  function MigrateStream(s: Stream): (Stream, bool) {
    var legacy := NonBlank(s.relayRoom).Or<string>(NonBlank(s.shareRoom));
    (Stream(s.room.Or<string>(legacy), None, None), legacy.Some?)
  }

  function MigrateMailbox(relay: ChatRelay, mailbox: Option<ChatRelay>): (ChatRelay, bool) {
    match mailbox
    case None => (relay, false)
    case Some(legacy) => (if relay.rooms == [] && !relay.enabled then legacy else relay, true)
  }

  /** All migrations in order, and whether the file should be saved. */
  function Migrate(c: Settings): (Settings, bool) {
    var (ai, aiChanged) := MigrateUpstream(c.ai);
    var (stream, streamChanged) := MigrateStream(c.stream);
    var (relay, mailboxChanged) := MigrateMailbox(c.relay, c.mailbox);
    (Settings(MigrateRefs(ai), MigratePipelines(ai.presets, c.pipelines), stream, relay, None),
     aiChanged || HasLegacyRefs(ai) || UsesPreset(c.pipelines) || streamChanged || mailboxChanged)
  }

  // ---- Once is enough -----------------------------------------------------------------------

  lemma NoLegacyRefs(ai: Ai)
    requires !HasLegacyRefs(ai)
    ensures MigrateUpstream(ai) == (ai, false) && MigrateRefs(ai) == ai
  {
    hide UniqueId, FindUpstream;
    assert Trim("") == "";
  }

  lemma NoPresetsUsed(presets: seq<Preset>, ps: seq<seq<Transform>>)
    requires !UsesPreset(ps)
    ensures MigratePipelines(presets, ps) == ps
  {
    forall i | 0 <= i < |ps| ensures MigratePipelines(presets, ps)[i] == ps[i] {
      assert ps[i] in ps;
      forall j | 0 <= j < |ps[i]| ensures MigrateTransforms(presets, ps[i])[j] == ps[i][j] {
        assert ps[i][j] in ps[i];
      }
    }
  }

  lemma NoPresetsLeft(presets: seq<Preset>, ps: seq<seq<Transform>>)
    ensures !UsesPreset(MigratePipelines(presets, ps))
  {
    var r := MigratePipelines(presets, ps);
    forall ts, t | ts in r && t in ts ensures t.presetId == "" {
      var i :| 0 <= i < |r| && r[i] == ts;
      var j :| 0 <= j < |ts| && ts[j] == t;
    }
  }

  /** A second run changes nothing and asks for no save. */
  lemma MigrationIsIdempotent(c: Settings)
    ensures Migrate(Migrate(c).0) == (Migrate(c).0, false)
  {
    hide MigrateUpstream, MigrateRoom, MigratePipelines, UsesPreset, IsBlank;
    var once := Migrate(c).0;
    NoPresetsLeft(MigrateUpstream(c.ai).0.presets, c.pipelines);
    NoLegacyRefs(once.ai);
    NoPresetsUsed(once.ai.presets, once.pipelines);
  }

  /** Blank legacy stream rooms, and nothing else in their place. */
  predicate OnlyBlankRooms(s: Stream) {
    && (s.relayRoom.Some? || s.shareRoom.Some?)
    && (s.relayRoom.Some? ==> IsBlank(s.relayRoom.value))
    && (s.shareRoom.Some? ==> IsBlank(s.shareRoom.value))
  }

  /**
   Settings change without a request to save exactly when blank legacy stream rooms are all that is
   left of the legacy fields.
   */
  lemma UnreportedChange(c: Settings)
    ensures !Migrate(c).1 && Migrate(c).0 != c <==>
              OnlyBlankRooms(c.stream) && !HasLegacyRefs(c.ai) && !UsesPreset(c.pipelines) && c.mailbox.None?
  {
    hide MigrateUpstream, MigrateRefs, MigratePipelines, UsesPreset, IsBlank, HasLegacyRefs;
    UpstreamReports(c.ai);
    if !HasLegacyRefs(c.ai) {
      NoLegacyRefs(c.ai);
    }
    if !UsesPreset(c.pipelines) {
      NoPresetsUsed(c.ai.presets, c.pipelines);
    }
  }

  /** A blank relay room, and nothing else, is dropped without a request to save. */
  lemma UnreportedExample()
    ensures var ai := Ai(None, None, None, None, [], None, None, None, None, None, [], "", "", "", []);
            var c := Settings(ai, [], Stream(None, Some(" "), None), ChatRelay([], false), None);
            Migrate(c) == (c.(stream := Stream(None, None, None)), false)
  {
    hide MigratePipelines, MigrateRoom, UsesPreset;
    var ai := Ai(None, None, None, None, [], None, None, None, None, None, [], "", "", "", []);
    NoLegacyRefs(ai);
    assert !UsesPreset([]) by { NoPipelines(); }
    NoPresetsUsed([], []);
    assert " "[1..] == "" && TrimStart(" ") == "";
    assert IsBlank(" ");
  }

  lemma NoPipelines()
    ensures !UsesPreset([])
  {}

  lemma UpstreamReports(ai: Ai)
    ensures !MigrateUpstream(ai).1 ==> MigrateUpstream(ai).0 == ai
  {
    hide UniqueId, FindUpstream;
  }

  // ---- Nothing is overwritten ---------------------------------------------------------------

  /** A provider after the migration: as before, except for an empty list of shared models. */
  predicate KeptProvider(p: Provider, q: Provider) {
    && q == p.(provide := q.provide, shared := q.shared)
    && (p.provide ==> q.provide)
    && (p.shared != [] ==> q.shared == p.shared)
  }

  predicate DistinctProviderIds(ps: seq<Provider>) { forall i, j | 0 <= i < j < |ps| :: ps[i].id != ps[j].id }

  lemma DistinctSnoc(ps: seq<Provider>, p: Provider)
    requires DistinctProviderIds(ps) && !Taken(ps, p.id)
    ensures DistinctProviderIds(ps + [p])
  {
    var all := ps + [p];
    forall i, j | 0 <= i < j < |all| ensures all[i].id != all[j].id {
      if j == |ps| {
        assert ps[i] in ps;
      }
    }
  }

  lemma UpstreamKeeps(ai: Ai)
    ensures var r := MigrateUpstream(ai).0;
            && ai.providers <= r.providers && (DistinctProviderIds(ai.providers) ==> DistinctProviderIds(r.providers))
            && ai.presets <= r.presets
            && r == ai.(providers := r.providers, presets := r.presets, defaultPresetId := r.defaultPresetId)
            && (!IsBlank(ai.defaultPresetId) ==> r.defaultPresetId == ai.defaultPresetId)
  {
    hide IsBlank, NormalizeUrl, Taken;
    var url, key := Trim(ai.upstreamUrl.GetOr("")), ai.upstreamApiKey.GetOr("");
    if url != "" && FindUpstream(ai.providers, NormalizeUrl(url), key).None? && DistinctProviderIds(ai.providers) {
      DistinctSnoc(ai.providers, NewProvider(UniqueId(ai.providers, "default"), "Default", url, key));
    }
  }

  /** References that the migration shares are to providers that exist and are no rooms. */
  lemma {:induction false} AdvertisedExist(presets: seq<Preset>, ps: seq<Provider>, names: seq<string>)
    ensures forall r | r in AdvertisedRefs(presets, ps, names) :: Exists(ps, r)
  {
    hide RoomOf;
    if names != [] {
      AdvertisedExist(presets, ps, names[1..]);
    }
  }

  lemma WithRoomKeeps(ai: Ai)
    ensures var ps := WithRoom(ai).0;
            && ai.providers <= ps && |ps| <= |ai.providers| + 1
            && (DistinctProviderIds(ai.providers) ==> DistinctProviderIds(ps))
  {
    hide IsBlank, Taken;
    var room := LegacyRoom(ai).GetOr(DEFAULT_ROOM);
    if DistinctProviderIds(ai.providers) {
      DistinctSnoc(ai.providers, NewProvider(UniqueId(ai.providers, "room"), room, ROOM_SCHEME + room, ""));
    }
  }

  /** Existing providers stay in place, and distinct ids stay distinct. */
  lemma RoomKeeps(ai: Ai)
    ensures var r := MigrateRoom(ai);
            && |ai.providers| <= |r| <= |ai.providers| + 1
            && (forall i | 0 <= i < |ai.providers| :: KeptProvider(ai.providers[i], r[i]))
            && (DistinctProviderIds(ai.providers) ==> DistinctProviderIds(r))
  {
    hide AdvertisedRefs, WithRoom, MovesRoom;
    WithRoomKeeps(ai);
    assert forall i | 0 <= i < |ai.providers| && |ai.providers| <= |WithRoom(ai).0| ::
      WithRoom(ai).0[i] == ai.providers[i];
  }

  /** A reference to a provider of the list that is no room. */
  predicate Exists(ps: seq<Provider>, ref: ModelRef) { exists p | p in ps :: p.id == ref.providerId && RoomOf(p).None? }

  lemma StillExists(ps: seq<Provider>, k: nat, q: Provider, ref: ModelRef)
    requires k < |ps| && q.id == ps[k].id && q.baseUrl == ps[k].baseUrl && Exists(ps, ref)
    ensures Exists(ps[k := q], ref)
  {
    hide RoomOf;
    SameRoom(ps[k], q);
    var p :| p in ps && p.id == ref.providerId && RoomOf(p).None?;
    var i :| 0 <= i < |ps| && ps[i] == p;
    assert ps[k := q][i] in ps[k := q];
  }

  /** Whatever the migration adds to a list of shared models exists. */
  lemma SharedExist(ai: Ai, i: nat)
    requires i < |MigrateRoom(ai)|
    ensures var r := MigrateRoom(ai);
            || (i < |ai.providers| && r[i].shared == ai.providers[i].shared)
            || forall ref | ref in r[i].shared :: Exists(r, ref)
  {
    hide AdvertisedRefs, WithRoom, MovesRoom, Exists, DistinctProviderIds;
    WithRoomKeeps(ai);
    if MovesRoom(ai) {
      var (ps, k) := WithRoom(ai);
      assert i < |ai.providers| ==> ps[i] == ai.providers[i];
      NewSharesNothing(ai);
      if i == k && ps[k].shared == [] {
        AdvertisedExist(ai.presets, ps, ai.advertised);
        forall ref | ref in AdvertisedRefs(ai.presets, ps, ai.advertised) ensures Exists(MigrateRoom(ai), ref) {
          StillExists(ps, k, MigrateRoom(ai)[k], ref);
        }
      }
    }
  }

  lemma NewSharesNothing(ai: Ai)
    ensures var (ps, k) := WithRoom(ai); forall i | |ai.providers| <= i < |ps| :: ps[i].shared == [] && i == k
  {
    hide IsBlank, UniqueId;
  }

  predicate KeptOption<T(==)>(before: Option<T>, after: Option<T>) { before.Some? ==> after == before }

  /** A transform keeps the model, effort and voice it has. */
  predicate KeptTransform(t: Transform, u: Transform) {
    KeptOption(t.model, u.model) &&
    match t
    case TextTransform(_, _, effort) => u.TextTransform? && KeptOption(effort, u.effort)
    case SpeechTransform(_, _, voice) => u.SpeechTransform? && KeptOption(voice, u.voice)
  }

  /** The migration never overwrites a new-style field that is set. */
  lemma NothingIsOverwritten(c: Settings)
    ensures var r := Migrate(c).0;
            && KeptOption(c.ai.defaultRef, r.ai.defaultRef) && KeptOption(c.ai.defaultEffort, r.ai.defaultEffort)
            && KeptOption(c.ai.tts, r.ai.tts) && KeptOption(c.ai.stt, r.ai.stt)
            && KeptOption(c.stream.room, r.stream.room)
            && (c.relay != ChatRelay([], false) ==> r.relay == c.relay)
            && |r.pipelines| == |c.pipelines|
            && (forall i | 0 <= i < |c.pipelines| ::
                  |r.pipelines[i]| == |c.pipelines[i]|
                  && forall j | 0 <= j < |c.pipelines[i]| :: KeptTransform(c.pipelines[i][j], r.pipelines[i][j]))
  {
    hide MigrateUpstream, MigrateRoom, UsesPreset, IsBlank, HasLegacyRefs, FindPreset, KeptTransform;
    UpstreamKeeps(c.ai);
    var presets := MigrateUpstream(c.ai).0.presets;
    forall i, j | 0 <= i < |c.pipelines| && 0 <= j < |c.pipelines[i]|
      ensures KeptTransform(c.pipelines[i][j], MigrateTransform(presets, c.pipelines[i][j]))
    {
      TransformKeeps(presets, c.pipelines[i][j]);
    }
  }

  lemma TransformKeeps(presets: seq<Preset>, t: Transform)
    ensures KeptTransform(t, MigrateTransform(presets, t))
  {
    hide FindPreset;
  }

  /**
   Providers are kept in order, with at most two more behind them; distinct ids stay distinct; and
   a list of shared models that changed refers only to providers that exist and are no rooms.
   */
  lemma ProvidersAreKept(c: Settings)
    ensures var before, after := c.ai.providers, Migrate(c).0.ai.providers;
            && |before| <= |after| <= |before| + 2
            && (forall i | 0 <= i < |before| :: KeptProvider(before[i], after[i]))
            && (DistinctProviderIds(before) ==> DistinctProviderIds(after))
            && (forall i | 0 <= i < |after| ::
                  (i < |before| && after[i].shared == before[i].shared)
                  || forall ref | ref in after[i].shared :: Exists(after, ref))
  {
    hide MigratePipelines, UsesPreset, IsBlank, HasLegacyRefs, DistinctProviderIds, Exists, MigrateRoom, UniqueId,
      NormalizeUrl, FindUpstream;
    var before, mid := c.ai.providers, MigrateUpstream(c.ai).0.providers;
    var after := MigrateRoom(MigrateUpstream(c.ai).0);
    UpstreamKeeps(c.ai);
    UpstreamAddsOne(c.ai);
    RoomKeeps(MigrateUpstream(c.ai).0);
    assert forall i | 0 <= i < |before| :: mid[i] == before[i];
    forall i | 0 <= i < |after|
      ensures || (i < |before| && after[i].shared == before[i].shared)
              || forall ref | ref in after[i].shared :: Exists(after, ref)
    {
      SharedExist(MigrateUpstream(c.ai).0, i);
    }
  }

  lemma UpstreamAddsOne(ai: Ai)
    ensures var r := MigrateUpstream(ai).0.providers;
            |ai.providers| <= |r| <= |ai.providers| + 1 && forall i | |ai.providers| <= i < |r| :: r[i].shared == []
  {
    hide IsBlank, NormalizeUrl, UniqueId, FindUpstream;
  }

  // ---- The upstream becomes the default -----------------------------------------------------

  lemma {:induction false} FoundUpstream(ps: seq<Provider>, url: string, key: string)
    ensures var r := FindUpstream(ps, url, key);
            r.Some? ==> r.value in ps && NormalizeUrl(r.value.baseUrl) == url && r.value.apiKey == key
  {
    hide NormalizeUrl;
    if ps != [] {
      FoundUpstream(ps[1..], url, key);
    }
  }

  /** A provider reaches the upstream when its normalized URL and key are those of the legacy fields. */
  predicate Reaches(p: Provider, ai: Ai) {
    NormalizeUrl(p.baseUrl) == NormalizeUrl(ai.upstreamUrl.GetOr("")) && p.apiKey == ai.upstreamApiKey.GetOr("")
  }

  /** A configuration of upstream fields alone defaults to their model at their provider. */
  lemma UpstreamBecomesDefault(c: Settings)
    requires c.ai.upstreamUrl.Some? && !IsBlank(c.ai.upstreamUrl.value)
    requires c.ai.presets == [] && IsBlank(c.ai.defaultPresetId) && c.ai.defaultRef.None?
    ensures var r := Migrate(c).0.ai;
            && r.defaultRef.Some? && r.defaultRef.value.model == c.ai.defaultModel.GetOr("")
            && exists p | p in r.providers :: p.id == r.defaultRef.value.providerId && Reaches(p, c.ai)
  {
    hide MigratePipelines, UsesPreset, Trim, HasLegacyRefs, MigrateRoom, UniqueId, NormalizeUrl, FindUpstream,
      FindPreset, DistinctProviderIds;
    var url, key := Trim(c.ai.upstreamUrl.value), c.ai.upstreamApiKey.GetOr("");
    UpstreamUrlNormal(c.ai.upstreamUrl.value);
    FoundUpstream(c.ai.providers, NormalizeUrl(url), key);
    var ai := MigrateUpstream(c.ai).0;
    var preset := ai.presets[0];
    DefaultPreset(ai.presets);
    var found := FindUpstream(c.ai.providers, NormalizeUrl(url), key);
    var p := if found.Some? then found.value else NewProvider(preset.providerId, "Default", url, key);
    assert p in ai.providers && p.id == preset.providerId && Reaches(p, c.ai);
    var i :| 0 <= i < |ai.providers| && ai.providers[i] == p;
    RoomKeeps(ai);
    assert MigrateRoom(ai)[i] in MigrateRoom(ai) && Reaches(MigrateRoom(ai)[i], c.ai);
  }

  lemma DefaultPreset(presets: seq<Preset>)
    requires |presets| == 1 && presets[0].id == "default"
    ensures FindPreset(presets, "default") == Some(presets[0])
  {}

  lemma UpstreamUrlNormal(url: string)
    ensures NormalizeUrl(Trim(url)) == NormalizeUrl(url)
  {
    hide Trim, IsWhitespace;
    TrimmedEnds(url);
    TrimmedAlready(Trim(url));
  }

  // ---- What is migrated, field by field -----------------------------------------------------

  /** The room of the stream: kept if set, else the relay room before the share room, if not blank. */
  lemma StreamMoves(c: Settings)
    ensures var before, after := c.stream, Migrate(c).0.stream;
            && after.relayRoom.None? && after.shareRoom.None?
            && (before.room.Some? ==> after.room == before.room)
            && (before.room.None? && HasText(before.relayRoom) ==> after.room == before.relayRoom)
            && (before.room.None? && !HasText(before.relayRoom) && HasText(before.shareRoom) ==>
                  after.room == before.shareRoom)
            && (before.room.None? && !HasText(before.relayRoom) && !HasText(before.shareRoom) ==> after.room.None?)
    ensures HasText(c.stream.relayRoom) || HasText(c.stream.shareRoom) ==> Migrate(c).1
  {
    hide MigrateUpstream, MigrateRefs, MigratePipelines, UsesPreset, Trim, HasLegacyRefs, MigrateMailbox;
  }

  /** Text is there, and not of whitespace alone. */
  predicate HasText(s: Option<string>) { s.Some? && Trim(s.value) != "" }

  /** The mailbox section always goes, and moves only into a relay section without rooms that is off. */
  lemma MailboxMoves(c: Settings)
    ensures Migrate(c).0.mailbox.None?
    ensures c.mailbox.None? ==> Migrate(c).0.relay == c.relay
    ensures c.mailbox.Some? ==>
              Migrate(c).1 && Migrate(c).0.relay == if c.relay == ChatRelay([], false) then c.mailbox.value else c.relay
  {
    hide MigrateUpstream, MigrateRefs, MigratePipelines, UsesPreset, HasLegacyRefs, MigrateStream;
  }

  predicate FirstWithId(presets: seq<Preset>, id: string, k: nat) {
    k < |presets| && presets[k].id == id && forall j | 0 <= j < k :: presets[j].id != id
  }

  predicate FirstWithModel(presets: seq<Preset>, model: string, k: nat) {
    k < |presets| && presets[k].model == model && forall j | 0 <= j < k :: presets[j].model != model
  }

  predicate FirstProvider(ps: seq<Provider>, id: string, k: nat) {
    k < |ps| && ps[k].id == id && forall j | 0 <= j < k :: ps[j].id != id
  }

  lemma {:induction false} FirstIsFound(presets: seq<Preset>, id: string, k: nat)
    requires FirstWithId(presets, id, k)
    ensures FindPreset(presets, id) == Some(presets[k])
    decreases k
  {
    if k > 0 {
      assert forall j | 0 <= j < k - 1 :: presets[1..][j] == presets[j + 1];
      FirstIsFound(presets[1..], id, k - 1);
    }
  }

  lemma {:induction false} FirstModelIsFound(presets: seq<Preset>, model: string, k: nat)
    requires FirstWithModel(presets, model, k)
    ensures FindByModel(presets, model) == Some(presets[k])
    decreases k
  {
    if k > 0 {
      assert forall j | 0 <= j < k - 1 :: presets[1..][j] == presets[j + 1];
      FirstModelIsFound(presets[1..], model, k - 1);
    }
  }

  lemma {:induction false} FirstProviderIsFound(ps: seq<Provider>, id: string, k: nat)
    requires FirstProvider(ps, id, k)
    ensures FindById(ps, id) == Some(ps[k])
    decreases k
  {
    if k > 0 {
      assert forall j | 0 <= j < k - 1 :: ps[1..][j] == ps[j + 1];
      FirstProviderIsFound(ps[1..], id, k - 1);
    }
  }

  lemma FirstStaysFirst(a: seq<Preset>, b: seq<Preset>, id: string, k: nat)
    requires a <= b && FirstWithId(a, id, k)
    ensures FirstWithId(b, id, k) && b[k] == a[k]
  {}

  /** A preset becomes the reference, the effort and the voice that are not set; the first with its id counts. */
  lemma PresetsMove(c: Settings, d: nat, t: nat, s: nat)
    ensures var presets, before, after := c.ai.presets, c.ai, Migrate(c).0.ai;
            && (FirstWithId(presets, before.defaultPresetId, d) && HasText(Some(before.defaultPresetId)) ==>
                  && (before.defaultRef.None? ==>
                        after.defaultRef == Some(ModelRef(presets[d].providerId, presets[d].model)))
                  && (before.defaultEffort.None? ==> after.defaultEffort == presets[d].effort))
            && (FirstWithId(presets, before.ttsPresetId, t) && before.tts.None? ==>
                  after.tts == Some(Voice(presets[t].providerId, presets[t].model, presets[t].voice,
                                          presets[t].langVoices, None)))
            && (FirstWithId(presets, before.sttPresetId, s) && before.stt.None? ==>
                  after.stt == Some(ModelRef(presets[s].providerId, presets[s].model)))
  {
    hide MigratePipelines, UsesPreset, IsBlank, HasLegacyRefs, MigrateRoom, MigrateUpstream, FindPreset, FirstWithId;
    UpstreamKeeps(c.ai);
    TextIsNotBlank(c.ai.defaultPresetId);
    var presets := MigrateUpstream(c.ai).0.presets;
    if FirstWithId(c.ai.presets, c.ai.defaultPresetId, d) {
      FirstStaysFirst(c.ai.presets, presets, c.ai.defaultPresetId, d);
      FirstIsFound(presets, c.ai.defaultPresetId, d);
    }
    if FirstWithId(c.ai.presets, c.ai.ttsPresetId, t) {
      FirstStaysFirst(c.ai.presets, presets, c.ai.ttsPresetId, t);
      FirstIsFound(presets, c.ai.ttsPresetId, t);
    }
    if FirstWithId(c.ai.presets, c.ai.sttPresetId, s) {
      FirstStaysFirst(c.ai.presets, presets, c.ai.sttPresetId, s);
      FirstIsFound(presets, c.ai.sttPresetId, s);
    }
  }

  lemma TextIsNotBlank(s: string)
    ensures HasText(Some(s)) <==> !IsBlank(s)
  {}

  /** Presets that do not exist give nothing. */
  lemma AbsentPresetsGiveNothing(c: Settings)
    requires c.ai.upstreamUrl.None?
    ensures var before, after := c.ai, Migrate(c).0.ai;
            && ((forall p | p in before.presets :: p.id != before.defaultPresetId) ==>
                  after.defaultRef == before.defaultRef && after.defaultEffort == before.defaultEffort)
            && ((forall p | p in before.presets :: p.id != before.ttsPresetId) ==> after.tts == before.tts)
            && ((forall p | p in before.presets :: p.id != before.sttPresetId) ==> after.stt == before.stt)
  {
    hide MigratePipelines, UsesPreset, IsBlank, HasLegacyRefs, MigrateRoom, FindPreset, FindUpstream, UniqueId;
    TrimOfNothing();
  }

  lemma TrimOfNothing()
    ensures Trim("") == ""
  {}

  /** A transform without a preset stays as it is. */
  lemma PlainTransformsStay(c: Settings, i: nat, j: nat)
    requires i < |c.pipelines| && j < |c.pipelines[i]| && c.pipelines[i][j].presetId == ""
    ensures Migrate(c).0.pipelines[i][j] == c.pipelines[i][j]
  {
    hide MigrateUpstream, MigrateRefs, UsesPreset, HasLegacyRefs, MigrateStream, FindPreset;
  }

  /** A preset gives a transform what it does not have: the model, and the effort or the voice. */
  lemma TransformsMove(c: Settings, i: nat, j: nat, k: nat)
    requires i < |c.pipelines| && j < |c.pipelines[i]| && c.pipelines[i][j].presetId != ""
    requires FirstWithId(c.ai.presets, c.pipelines[i][j].presetId, k)
    ensures var p, before, after := c.ai.presets[k], c.pipelines[i][j], Migrate(c).0.pipelines[i][j];
            && after.presetId == ""
            && after.model == (if before.model.Some? then before.model else Some(ModelRef(p.providerId, p.model)))
            && (before.TextTransform? ==>
                  after.TextTransform? && after.effort == if before.effort.Some? then before.effort else p.effort)
            && (before.SpeechTransform? ==>
                  after.SpeechTransform? && after.voice == if before.voice.Some? then before.voice else p.voice)
  {
    hide MigrateUpstream, MigrateRefs, UsesPreset, HasLegacyRefs, MigrateStream, FindPreset, FirstWithId;
    UpstreamKeeps(c.ai);
    var id, presets := c.pipelines[i][j].presetId, MigrateUpstream(c.ai).0.presets;
    FirstStaysFirst(c.ai.presets, presets, id, k);
    FirstIsFound(presets, id, k);
  }

  /** An unknown preset stays visible as a model of no provider. */
  lemma UnknownPresetsStayVisible(c: Settings, i: nat, j: nat)
    requires i < |c.pipelines| && j < |c.pipelines[i]| && c.pipelines[i][j].presetId != ""
    requires forall p | p in c.ai.presets :: p.id != c.pipelines[i][j].presetId
    requires c.ai.upstreamUrl.None?
    ensures var before, after := c.pipelines[i][j], Migrate(c).0.pipelines[i][j];
            && after.presetId == ""
            && after.model == (if before.model.Some? then before.model else Some(ModelRef("", before.presetId)))
            && (before.TextTransform? ==> after.TextTransform? && after.effort == before.effort)
            && (before.SpeechTransform? ==> after.SpeechTransform? && after.voice == before.voice)
  {
    hide MigrateRefs, UsesPreset, HasLegacyRefs, MigrateStream, FindPreset, FindUpstream, UniqueId;
    TrimOfNothing();
  }

  /** A free id is kept, and one that is taken gets the first number from 2 on that is free. */
  lemma IdsAreNumbered(ps: seq<Provider>, base: string)
    ensures !Taken(ps, base) ==> UniqueId(ps, base) == base
    ensures Taken(ps, base) ==>
              exists n | 2 <= n ::
                && UniqueId(ps, base) == base + "-" + Numeral(n) && !Taken(ps, base + "-" + Numeral(n))
                && forall m | 2 <= m < n :: Taken(ps, base + "-" + Numeral(m))
  {
    hide Taken, Candidate, UniqueFrom;
    if Taken(ps, base) {
      var n := FirstFree(ps, base, 2);
      CandidatesInText(ps, base, n);
      assert UniqueId(ps, base) == base + "-" + Numeral(n);
    }
  }

  lemma FirstFree(ps: seq<Provider>, base: string, from: nat) returns (n: nat)
    requires from >= 2 && TakenBelow(ps, base, from)
    ensures n >= from && UniqueFrom(ps, base, from) == Candidate(base, n) && !Taken(ps, Candidate(base, n))
    ensures TakenBelow(ps, base, n)
    decreases |ps| + 2 - from
  {
    hide Candidate, Taken;
    TakenAreFew(ps, base, from);
    if Taken(ps, Candidate(base, from)) {
      n := FirstFree(ps, base, from + 1);
    } else {
      n := from;
    }
  }

  lemma CandidatesInText(ps: seq<Provider>, base: string, n: nat)
    requires TakenBelow(ps, base, n) && !Taken(ps, Candidate(base, n))
    ensures Candidate(base, n) == base + "-" + Numeral(n) && !Taken(ps, base + "-" + Numeral(n))
    ensures forall m | 2 <= m < n :: Taken(ps, base + "-" + Numeral(m))
  {
    hide Taken, Numeral;
    assert forall m | 2 <= m < n :: Candidate(base, m) == base + "-" + Numeral(m);
  }

  lemma {:induction false} NoneReaches(ps: seq<Provider>, ai: Ai)
    ensures FindUpstream(ps, NormalizeUrl(ai.upstreamUrl.GetOr("")), ai.upstreamApiKey.GetOr("")).None? <==>
              forall p | p in ps :: !Reaches(p, ai)
  {
    hide NormalizeUrl, Reaches;
    if ps != [] {
      NoneReaches(ps[1..], ai);
      assert forall p :: p in ps <==> p == ps[0] || p in ps[1..];
      ReachesMeans(ps[0], ai);
    }
  }

  lemma ReachesMeans(p: Provider, ai: Ai)
    ensures Reaches(p, ai) <==> && NormalizeUrl(p.baseUrl) == NormalizeUrl(ai.upstreamUrl.GetOr(""))
                                && p.apiKey == ai.upstreamApiKey.GetOr("")
  {}

  /** An upstream that no provider reaches becomes a provider, and nothing is added for one that is reached. */
  lemma UpstreamIsAdded(c: Settings)
    requires HasText(c.ai.upstreamUrl)
    ensures var before, after := c.ai.providers, Migrate(c).0.ai.providers;
            && ((forall p | p in before :: !Reaches(p, c.ai)) ==>
                  && |after| > |before| && after[|before|].id == UniqueId(before, "default")
                  && after[|before|].name == "Default" && after[|before|].baseUrl == Trim(c.ai.upstreamUrl.value)
                  && after[|before|].apiKey == c.ai.upstreamApiKey.GetOr("") && after[|before|].enabled
                  && after[|before|].models == [] && after[|before|].modelsFetchedAt.None?)
            && ((exists p | p in before :: Reaches(p, c.ai)) && c.ai.roomId.None? && c.ai.advertised == [] ==>
                  after == before)
            && Migrate(c).1
  {
    hide MigratePipelines, UsesPreset, Trim, HasLegacyRefs, MigrateRoom, UniqueId, NormalizeUrl, FindUpstream,
      FindPreset, DistinctProviderIds, Reaches;
    var url := c.ai.upstreamUrl.value;
    UpstreamUrlNormal(url);
    NoneReaches(c.ai.providers, c.ai);
    var ai := MigrateUpstream(c.ai).0;
    RoomKeeps(ai);
    if c.ai.roomId.None? && c.ai.advertised == [] {
      NoRoomToMove(ai);
    }
  }

  lemma NoRoomToMove(ai: Ai)
    requires !HasText(ai.roomId) && ai.advertised == []
    ensures MigrateRoom(ai) == ai.providers
  {
    hide WithRoom, AdvertisedRefs;
  }

  /** The upstream also becomes the preset `default`, unless there is one. */
  lemma DefaultPresetIsAdded(ai: Ai)
    requires HasText(ai.upstreamUrl)
    ensures var r := MigrateUpstream(ai).0;
            if exists p | p in ai.presets :: p.id == "default" then r.presets == ai.presets
            else
              && |r.presets| == |ai.presets| + 1 && ai.presets <= r.presets
              && var p := r.presets[|ai.presets|];
                 && p.id == "default" && p.model == ai.defaultModel.GetOr("") && p.effort.None? && p.voice.None?
                 && p.langVoices == map[] && exists q | q in r.providers :: q.id == p.providerId && Reaches(q, ai)
  {
    hide Trim, UniqueId, NormalizeUrl, FindUpstream;
    var url, key := Trim(ai.upstreamUrl.value), ai.upstreamApiKey.GetOr("");
    UpstreamUrlNormal(ai.upstreamUrl.value);
    FoundUpstream(ai.providers, NormalizeUrl(url), key);
    var found := FindUpstream(ai.providers, NormalizeUrl(url), key);
    var q := if found.Some? then found.value
             else NewProvider(UniqueId(ai.providers, "default"), "Default", url, key);
    assert q in MigrateUpstream(ai).0.providers && Reaches(q, ai);
  }

  /** URLs are compared without whitespace around them and slashes behind them. */
  lemma UrlsAreCompared(url: string)
    requires Trim(url) == url
    ensures url == "" || url[|url| - 1] != '/' ==> NormalizeUrl(url) == url
    ensures NormalizeUrl(url + "/") == NormalizeUrl(url)
  {
    hide Trim, IsWhitespace;
    TrimmedEnds(url);
    WhitespaceFacts();
    TrimmedAlready(url + "/");
    assert (url + "/")[..|url|] == url;
  }

  /** The room that was advertised in is offered by a provider of its own, which shares what was advertised. */
  lemma RoomMoves(ai: Ai, room: string, k: nat)
    requires if HasText(ai.roomId) then room == ai.roomId.value
             else ai.advertised != [] && room == "mistl-mailbox-v1"
    requires k <= |ai.providers| && forall i | 0 <= i < k :: ai.providers[i].baseUrl != "mist-network://" + room
    requires k < |ai.providers| ==> ai.providers[k].baseUrl == "mist-network://" + room
    ensures var before, after := ai.providers, MigrateRoom(ai);
            && k < |after| && (forall i | 0 <= i < |before| && i != k :: i < |after| && after[i] == before[i])
            && (k < |before| ==> |after| == |before|)
            && var p := if k < |before| then before[k]
                        else NewProvider(UniqueId(before, "room"), room, "mist-network://" + room, "");
               var all := if k < |before| then before else before + [p];
            && after[k] == p.(provide := p.provide || ai.advertised != [],
                              shared := if p.shared != [] then p.shared
                                        else AdvertisedRefs(ai.presets, all, ai.advertised))
  {
    hide IsBlank, UniqueId, AdvertisedRefs, IndexOfUrl;
    TextIsNotBlank(ai.roomId.GetOr(""));
    RoomInText(room);
    FirstUrl(ai.providers, "mist-network://" + room, k);
  }

  lemma RoomInText(room: string)
    ensures ROOM_SCHEME + room == "mist-network://" + room && DEFAULT_ROOM == "mistl-mailbox-v1"
  {}

  lemma {:induction false} FirstUrl(ps: seq<Provider>, url: string, k: nat)
    requires k <= |ps| && forall i | 0 <= i < k :: ps[i].baseUrl != url
    requires k < |ps| ==> ps[k].baseUrl == url
    ensures IndexOfUrl(ps, url) == k
  {}

  /** A name is advertised as the preset with that id, else as the first with that model. */
  lemma NamesAreAdvertised(presets: seq<Preset>, ps: seq<Provider>, name: string, k: nat, m: nat)
    requires || FirstWithId(presets, name, k)
             || (FirstWithModel(presets, name, k) && forall p | p in presets :: p.id != name)
    requires FirstProvider(ps, presets[k].providerId, m)
    ensures AdvertisedRefs(presets, ps, [name]) ==
              if RoomOf(ps[m]).Some? then [] else [ModelRef(presets[k].providerId, presets[k].model)]
  {
    hide RoomOf, FindPreset, FindByModel, FindById;
    FirstProviderIsFound(ps, presets[k].providerId, m);
    if FirstWithId(presets, name, k) {
      FirstIsFound(presets, name, k);
    } else {
      FirstModelIsFound(presets, name, k);
    }
    assert [name][1..] == [];
  }

  /** Names are advertised in order, and those of no preset, or of a preset without a provider, are not. */
  lemma {:induction false} NamesInOrder(presets: seq<Preset>, ps: seq<Provider>, a: seq<string>, b: seq<string>)
    ensures AdvertisedRefs(presets, ps, a + b) == AdvertisedRefs(presets, ps, a) + AdvertisedRefs(presets, ps, b)
  {
    hide AdvertisedRef;
    if a == [] {
      assert a + b == b;
    } else {
      assert (a + b)[1..] == a[1..] + b;
      NamesInOrder(presets, ps, a[1..], b);
    }
  }

  lemma OtherNamesAreNotAdvertised(presets: seq<Preset>, ps: seq<Provider>, name: string)
    requires forall p, q | p in presets && q in ps && (p.id == name || p.model == name) :: q.id != p.providerId
    ensures AdvertisedRefs(presets, ps, [name]) == []
  {
    hide RoomOf, FindById;
    ByModelFinds(presets, name);
    assert [name][1..] == [];
    match FindPreset(presets, name).Or<Preset>(FindByModel(presets, name))
    case None =>
    case Some(preset) => FoundById(ps, preset.providerId);
  }

  lemma {:induction false} ByModelFinds(presets: seq<Preset>, model: string)
    ensures var r := FindByModel(presets, model); r.Some? ==> r.value in presets && r.value.model == model
  {
    if presets != [] {
      ByModelFinds(presets[1..], model);
    }
  }

  lemma FoundById(ps: seq<Provider>, id: string)
    ensures FindById(ps, id).Some? ==> exists q | q in ps :: q.id == id
  {}

  // ---- The configuration --------------------------------------------------------------------

  class Config {
    var ai: Ai
    var pipelines: seq<seq<Transform>>
    var stream: Stream
    var relay: ChatRelay
    var mailbox: Option<ChatRelay>

    function Value(): Settings
      reads this
    {
      Settings(ai, pipelines, stream, relay, mailbox)
    }

    constructor (c: Settings)
      ensures Value() == c
    {
      ai, pipelines, stream, relay, mailbox := c.ai, c.pipelines, c.stream, c.relay, c.mailbox;
    }

    method MigrateLegacy() returns (changed: bool)
      modifies this
      ensures (Value(), changed) == Migrate(old(Value()))
    {
      hide MigrateUpstream, MigrateRefs, MigratePipelines, UsesPreset, HasLegacyRefs, MigrateStream, MigrateMailbox;
      var aiChanged := MigrateLegacyAi();
      var refsChanged := MigrateModelRefs();
      var streamChanged := MigrateLegacyStreamRoom();
      var mailboxChanged := MigrateLegacyMailbox();
      changed := aiChanged || refsChanged || streamChanged || mailboxChanged;
    }

    method MigrateLegacyMailbox() returns (changed: bool)
      modifies `relay, `mailbox
      ensures (relay, changed) == MigrateMailbox(old(relay), old(mailbox)) && mailbox == None
    {
      if mailbox == None {
        return false;
      }
      var legacy := mailbox.value;
      mailbox := None;
      if relay.rooms == [] && !relay.enabled {
        relay := ChatRelay(legacy.rooms, legacy.enabled);
      }
      changed := true;
    }

    method MigrateLegacyStreamRoom() returns (changed: bool)
      modifies `stream
      ensures (stream, changed) == MigrateStream(old(stream))
    {
      hide IsBlank;
      var relayRoom, shareRoom := NonBlank(stream.relayRoom), NonBlank(stream.shareRoom);
      stream := stream.(relayRoom := None, shareRoom := None);
      var legacy := relayRoom.Or<string>(shareRoom);
      if legacy == None {
        return false;
      }
      if stream.room == None {
        stream := stream.(room := legacy);
      }
      changed := true;
    }

    method MigrateLegacyAi() returns (changed: bool)
      modifies `ai
      ensures (ai, changed) == MigrateUpstream(old(ai))
    {
      hide IsBlank, UniqueId, NormalizeUrl, FindUpstream, FindPreset, Trim;
      var url := Trim(ai.upstreamUrl.GetOr(""));
      if url == "" {
        return false;
      }
      var key := ai.upstreamApiKey.GetOr("");
      var found := FindUpstream(ai.providers, NormalizeUrl(url), key);
      var id: string;
      if found.Some? {
        id := found.value.id;
      } else {
        id := UniqueProviderId(ai.providers, "default");
        ai := ai.(providers := ai.providers + [NewProvider(id, "Default", url, key)]);
      }
      if FindPreset(ai.presets, "default") == None {
        ai := ai.(presets := ai.presets + [Preset("default", id, ai.defaultModel.GetOr(""), None, None, map[])]);
      }
      if IsBlank(ai.defaultPresetId) {
        ai := ai.(defaultPresetId := "default");
      }
      changed := true;
    }

    method MigrateModelRefs() returns (changed: bool)
      modifies `ai, `pipelines
      ensures ai == MigrateRefs(old(ai)) && pipelines == MigratePipelines(old(ai).presets, old(pipelines))
      ensures changed == (HasLegacyRefs(old(ai)) || UsesPreset(old(pipelines)))
    {
      hide FindPreset, MigrateRoom, MigratePipelines, UsesPreset, HasLegacyRefs, MapOption, EffortOf, RefOf, NewVoice;
      changed := HasLegacyRefs(ai);
      ghost var before := ai;
      var preset := FindPreset(ai.presets, ai.defaultPresetId);
      if ai.defaultEffort == None {
        ai := ai.(defaultEffort := EffortOf(preset));
      }
      if ai.defaultRef == None {
        ai := ai.(defaultRef := MapOption(preset, RefOf));
      }
      if ai.tts == None {
        ai := ai.(tts := MapOption(FindPreset(ai.presets, ai.ttsPresetId), NewVoice));
      }
      if ai.stt == None {
        ai := ai.(stt := MapOption(FindPreset(ai.presets, ai.sttPresetId), RefOf));
      }
      var moved, used := MovePipelines(ai.presets, pipelines);
      pipelines := moved;
      changed := changed || used;
      SameRooms(before, ai);
      var providers := MoveRoom(ai);
      ai := ai.(providers := providers);
      ai := ai.(roomId := None, advertised := [], presets := [],
                defaultPresetId := "", ttsPresetId := "", sttPresetId := "",
                upstreamUrl := None, upstreamApiKey := None, defaultModel := None, temperature := None);
    }
  }

  lemma SameRooms(a: Ai, b: Ai)
    requires a.roomId == b.roomId && a.advertised == b.advertised && a.presets == b.presets
               && a.providers == b.providers
    ensures MigrateRoom(a) == MigrateRoom(b)
  {
    hide IsBlank, UniqueId, AdvertisedRefs;
  }

  /** Finds or adds the provider for the legacy room, and shares through it what was advertised. */
  method MoveRoom(ai: Ai) returns (providers: seq<Provider>)
    ensures providers == MigrateRoom(ai)
  {
    hide IsBlank, UniqueId, AdvertisedRefs;
    providers := ai.providers;
    if LegacyRoom(ai).None? && ai.advertised == [] {
      return;
    }
    var room := LegacyRoom(ai).GetOr(DEFAULT_ROOM);
    var url := ROOM_SCHEME + room;
    var index := IndexOfUrl(providers, url);
    if index == |providers| {
      var id := UniqueProviderId(providers, "room");
      providers := providers + [NewProvider(id, room, url, "")];
    }
    var shared := AdvertisedRefs(ai.presets, providers, ai.advertised);
    if providers[index].shared == [] {
      providers := providers[index := providers[index].(shared := shared)];
    }
    if ai.advertised != [] {
      providers := providers[index := providers[index].(provide := true)];
    }
    assert providers == MigrateRoom(ai);
  }

  method MovePipelines(presets: seq<Preset>, pipelines: seq<seq<Transform>>)
    returns (moved: seq<seq<Transform>>, used: bool)
    ensures moved == MigratePipelines(presets, pipelines) && used == UsesPreset(pipelines)
  {
    hide MigrateTransforms;
    moved, used := pipelines, false;
    for i := 0 to |pipelines|
      invariant |moved| == |pipelines|
      invariant forall k | 0 <= k < i :: moved[k] == MigrateTransforms(presets, pipelines[k])
      invariant forall k | i <= k < |pipelines| :: moved[k] == pipelines[k]
      invariant used <==> UsesPreset(pipelines[..i])
    {
      var ts, any := MoveTransforms(presets, moved[i]);
      moved := moved[i := ts];
      used := used || any;
      UsesPresetSnoc(pipelines, i);
    }
    assert pipelines[..|pipelines|] == pipelines;
  }

  lemma UsesPresetSnoc(ps: seq<seq<Transform>>, i: nat)
    requires i < |ps|
    ensures UsesPreset(ps[..i + 1]) <==> UsesPreset(ps[..i]) || NamesPreset(ps[i])
  {
    assert ps[..i + 1] == ps[..i] + [ps[i]];
    assert forall ts :: ts in ps[..i + 1] <==> ts in ps[..i] || ts == ps[i];
  }

  method MoveTransforms(presets: seq<Preset>, transforms: seq<Transform>) returns (moved: seq<Transform>, used: bool)
    ensures moved == MigrateTransforms(presets, transforms)
    ensures used <==> NamesPreset(transforms)
  {
    hide FindPreset;
    moved, used := transforms, false;
    for i := 0 to |transforms|
      invariant |moved| == |transforms|
      invariant forall k | 0 <= k < i :: moved[k] == MigrateTransform(presets, transforms[k])
      invariant forall k | i <= k < |transforms| :: moved[k] == transforms[k]
      invariant used <==> NamesPreset(transforms[..i])
    {
      assert transforms[..i + 1] == transforms[..i] + [transforms[i]];
      var t := transforms[i];
      if t.presetId != "" {
        used := true;
        assert t in transforms[..i + 1];
        var preset := FindPreset(presets, t.presetId);
        var model := t.model.Or<ModelRef>(Some(if preset.Some? then RefOf(preset.value) else ModelRef("", t.presetId)));
        match t {
        case TextTransform(_, _, effort) =>
          moved := moved[i := TextTransform(model, "", effort.Or<string>(EffortOf(preset)))];
        case SpeechTransform(_, _, voice) =>
          moved := moved[i := SpeechTransform(model, "", voice.Or<string>(VoiceOf(preset)))];
        }
      }
    }
    assert transforms[..|transforms|] == transforms;
  }
}
