/**
 The consumer side of the AI network: the catalog of providers, the pinned one, the trust list,
 and the requests in flight with the peer that each is bound to. Each public call is one step.
 */
module AiConsumer {
  import opened Wrappers
  import opened Text
  import Json
  import opened ResponseStream

  const MAX_PROVIDERS: nat := 256
  const CHAT := "chat"

  datatype Provider = Provider(
    nodeId: string,
    models: seq<string>,
    modelsKnown: bool,
    services: Option<seq<string>>,
    voices: Option<seq<string>>,
    did: Option<string>,
    trusted: bool)

  /** A request in flight: the peer it was sent to, and the events queued for it. */
  datatype Pending = Pending(peer: string, queue: seq<Event>)

  datatype Message =
    | ProviderHello(models: Option<seq<string>>, services: Option<seq<string>>, voices: Option<seq<string>>)
    | ResponseChunk(id: string, delta: string, seqNo: Option<nat>)
    | ResponseDone(id: string, content: Option<string>, toolCalls: Option<Json.Json>)
    | LlmError(id: string, message: string, code: Option<string>)
    | OtherMessage

  datatype State = State(
    catalog: map<string, Provider>,
    pinned: Option<Provider>,
    trusted: seq<string>,
    pending: map<string, Pending>)

  const EMPTY := State(map[], None, [], map[])

  /** What can happen; a message carries the DID that was verified for its sender, if any. */
  datatype Action =
    | Receive(from: string, did: Option<string>, msg: Message)
    | Disconnect(node: string)
    | SetTrusted(list: seq<string>)
    | Register(requestId: string, peer: string)
    | Drop(doneId: string)
    | RejectAll(reason: string)

  // ---- Trust and limits ---------------------------------------------------------------------

  /** Node ids are hashes of DIDs. */
  type Hash = string -> string

  /** The verified DID, or the node id that it hashes to, is on the list. */
  predicate Matches(hash: Hash, trusted: seq<string>, did: Option<string>) {
    did.Some? && exists t | t in trusted :: t == did.value || ToLower(t) == ToLower(hash(did.value))
  }

  predicate Advertises(services: Option<seq<string>>, service: string) {
    match services
    case None => service == CHAT
    case Some(list) => service in list
  }

  predicate FitsList(values: Option<seq<string>>, count: nat, size: nat) {
    values.Some? ==> |values.value| <= count && forall v | v in values.value :: Size(v) <= size
  }

  predicate FitsLimits(msg: Message)
    requires msg.ProviderHello?
  {
    FitsList(msg.models, 256, 512) && FitsList(msg.services, 32, 128) && FitsList(msg.voices, 256, 256)
  }

  function InfoOf(hash: Hash, trusted: seq<string>, from: string, did: Option<string>, msg: Message): Provider
    requires msg.ProviderHello?
  {
    Provider(from, msg.models.GetOr([]), msg.models.Some?, msg.services, msg.voices, did, Matches(hash, trusted, did))
  }

  // ---- Steps --------------------------------------------------------------------------------

  function Send(pending: map<string, Pending>, from: string, id: string, event: Event): map<string, Pending> {
    if id in pending && pending[id].peer == from then pending[id := pending[id].(queue := pending[id].queue + [event])]
    else pending
  }

  function RejectFrom(pending: map<string, Pending>, peer: string): map<string, Pending> {
    map id | id in pending ::
      if pending[id].peer == peer then pending[id].(queue := pending[id].queue + [Rejected("provider disconnected")])
        else pending[id]
  }

  function Left(s: State, node: string): State {
    var pinned := if s.pinned.Some? && s.pinned.value.nodeId == node then None else s.pinned;
    State(s.catalog - {node}, pinned, s.trusted, RejectFrom(s.pending, node))
  }

  /** Whether a hello is taken into account, before the limit on the catalog. */
  predicate Eligible(hash: Hash, s: State, did: Option<string>, msg: Message)
    requires msg.ProviderHello?
  {
    FitsLimits(msg) && (s.trusted == [] || Matches(hash, s.trusted, did))
  }

  function Greeted(hash: Hash, s: State, from: string, did: Option<string>, msg: Message): State
    requires msg.ProviderHello?
  {
    if !Eligible(hash, s, did, msg) then s
    else if msg.services == Some([]) then Left(s, from)
    else if |s.catalog| >= MAX_PROVIDERS && from !in s.catalog then s
    else
      var info := InfoOf(hash, s.trusted, from, did, msg);
      var mine := s.pinned.Some? && s.pinned.value.nodeId == from;
      s.(catalog := s.catalog[from := info],
         pinned := if Advertises(msg.services, CHAT) then (if s.pinned.None? || mine then Some(info) else s.pinned)
                   else if mine then None else s.pinned)
  }

  function Received(hash: Hash, s: State, from: string, did: Option<string>, msg: Message): State {
    match msg
    case ProviderHello(_, _, _) => Greeted(hash, s, from, did, msg)
    case ResponseChunk(id, delta, seqNo) => s.(pending := Send(s.pending, from, id, Chunk(delta, seqNo)))
    case ResponseDone(id, content, calls) => s.(pending := Send(s.pending, from, id, Done(content, calls)))
    case LlmError(id, message, code) => s.(pending := Send(s.pending, from, id, Error(message, code)))
    case OtherMessage => s
  }

  function Retrusted(hash: Hash, s: State, list: seq<string>): State {
    if list == [] then s.(trusted := [])
    else s.(trusted := list,
            catalog := map n | n in s.catalog && Matches(hash, list, s.catalog[n].did) :: s.catalog[n],
            pinned := if s.pinned.Some? && !Matches(hash, list, s.pinned.value.did) then None else s.pinned)
  }

  function Step(hash: Hash, s: State, a: Action): State {
    match a
    case Receive(from, did, msg) => Received(hash, s, from, did, msg)
    case Disconnect(node) => Left(s, node)
    case SetTrusted(list) => Retrusted(hash, s, list)
    case Register(id, peer) => s.(pending := s.pending[id := Pending(peer, [])])
    case Drop(id) => s.(pending := s.pending - {id})
    case RejectAll(reason) =>
      s.(pending := map id | id in s.pending :: s.pending[id].(queue := s.pending[id].queue + [Rejected(reason)]))
  }

  function Run(hash: Hash, s: State, actions: seq<Action>): State
    decreases |actions|
  {
    if actions == [] then s else Run(hash, Step(hash, s, actions[0]), actions[1..])
  }

  // ---- What every run keeps -----------------------------------------------------------------

  /** The catalog is bounded and keyed by node; the pin is one of its chat providers; the list rules. */
  ghost predicate SoundCatalog(hash: Hash, s: State) {
    && |s.catalog| <= MAX_PROVIDERS
    && (forall n | n in s.catalog :: s.catalog[n].nodeId == n && s.catalog[n].services != Some([]))
    && (s.pinned.Some? ==>
          && s.pinned.value.nodeId in s.catalog && s.catalog[s.pinned.value.nodeId] == s.pinned.value
          && Advertises(s.pinned.value.services, CHAT))
    && (s.trusted != [] ==> forall n | n in s.catalog :: Matches(hash, s.trusted, s.catalog[n].did))
  }

  lemma RemovalIsNoLarger<K, V>(m: map<K, V>, part: map<K, V>)
    requires part.Keys <= m.Keys
    ensures |part| <= |m|
  {
    SubsetIsNoLarger(part.Keys, m.Keys);
    assert |part| == |part.Keys| && |m| == |m.Keys|;
  }

  lemma InsertSize(m: map<string, Provider>, n: string, p: Provider)
    ensures |m[n := p]| == if n in m then |m| else |m| + 1
  {
    var keys := m[n := p].Keys;
    assert keys == m.Keys + {n};
    assert |m[n := p]| == |keys| && |m| == |m.Keys|;
    assert n in m ==> keys == m.Keys;
  }

  lemma LeavingKeeps(hash: Hash, s: State, node: string)
    requires SoundCatalog(hash, s)
    ensures SoundCatalog(hash, Left(s, node))
  {
    hide Matches;
    RemovalIsNoLarger(s.catalog, s.catalog - {node});
  }

  /** A new or renewed entry, with the pin that goes with it. */
  lemma EntryKeeps(hash: Hash, s: State, info: Provider, pinned: Option<Provider>)
    requires SoundCatalog(hash, s)
    requires |s.catalog| < MAX_PROVIDERS || info.nodeId in s.catalog
    requires info.services != Some([]) && (s.trusted != [] ==> Matches(hash, s.trusted, info.did))
    requires || pinned == None
             || (pinned == Some(info) && Advertises(info.services, CHAT))
             || (pinned == s.pinned && pinned.Some? && pinned.value.nodeId != info.nodeId)
    ensures SoundCatalog(hash, s.(catalog := s.catalog[info.nodeId := info], pinned := pinned))
  {
    hide Matches, Advertises;
    InsertSize(s.catalog, info.nodeId, info);
  }

  lemma GreetingKeeps(hash: Hash, s: State, from: string, did: Option<string>, msg: Message)
    requires SoundCatalog(hash, s) && msg.ProviderHello?
    ensures SoundCatalog(hash, Greeted(hash, s, from, did, msg))
  {
    hide Matches, FitsLimits, SoundCatalog, Advertises, Left;
    var r := Greeted(hash, s, from, did, msg);
    if Eligible(hash, s, did, msg) {
      if msg.services == Some([]) {
        LeavingKeeps(hash, s, from);
      } else if |s.catalog| < MAX_PROVIDERS || from in s.catalog {
        EntryKeeps(hash, s, InfoOf(hash, s.trusted, from, did, msg), r.pinned);
      }
    }
  }

  lemma StepKeeps(hash: Hash, s: State, a: Action)
    requires SoundCatalog(hash, s)
    ensures SoundCatalog(hash, Step(hash, s, a))
  {
    hide Matches, Greeted, Left, Advertises;
    match a
    case Receive(from, did, msg) => if msg.ProviderHello? { GreetingKeeps(hash, s, from, did, msg); }
    case Disconnect(node) => LeavingKeeps(hash, s, node);
    case SetTrusted(list) => RemovalIsNoLarger(s.catalog, Retrusted(hash, s, list).catalog);
    case _ =>
  }

  /** Every run from the empty state keeps the catalog sound. */
  lemma {:induction false} RunKeeps(hash: Hash, s: State, actions: seq<Action>)
    requires SoundCatalog(hash, s)
    ensures SoundCatalog(hash, Run(hash, s, actions))
    decreases |actions|
  {
    hide SoundCatalog, Step;
    if actions != [] {
      StepKeeps(hash, s, actions[0]);
      RunKeeps(hash, Step(hash, s, actions[0]), actions[1..]);
    }
  }

  // ---- Non-interference ---------------------------------------------------------------------

  /** What a request can depend on: the trust list, and its own entry. */
  datatype View = View(trusted: seq<string>, entry: Option<Pending>)

  function ViewOf(s: State, id: string): View {
    View(s.trusted, Get(s.pending, id))
  }

  /** Actions that may concern a request bound to a peer. */
  predicate Concerns(a: Action, id: string, peer: string) {
    match a
    case Receive(from, _, _) => from == peer
    case Disconnect(node) => node == peer
    case SetTrusted(_) => true
    case Register(other, _) => other == id
    case Drop(other) => other == id
    case RejectAll(_) => true
  }

  function Relevant(actions: seq<Action>, id: string, peer: string): seq<Action> {
    if actions == [] then []
    else (if Concerns(actions[0], id, peer) then [actions[0]] else []) + Relevant(actions[1..], id, peer)
  }

  /** The request is bound to this peer, if it is still in flight. */
  predicate BoundTo(v: View, peer: string) { v.entry.Some? ==> v.entry.value.peer == peer }

  predicate NotReused(actions: seq<Action>, id: string) {
    forall a | a in actions :: !(a.Register? && a.requestId == id)
  }

  function Get(pending: map<string, Pending>, id: string): Option<Pending> {
    if id in pending then Some(pending[id]) else None
  }

  function Queued(entry: Option<Pending>, event: Event): Option<Pending> {
    match entry
    case None => None
    case Some(p) => Some(p.(queue := p.queue + [event]))
  }

  /** The entry after an event that a peer sends for it. */
  function SentTo(entry: Option<Pending>, from: string, event: Event): Option<Pending> {
    if entry.Some? && entry.value.peer == from then Queued(entry, event) else entry
  }

  /** The entry of one request after a step, from nothing but the trust list and the entry. */
  function EntryAfter(hash: Hash, v: View, id: string, a: Action): Option<Pending> {
    match a
    case Receive(from, did, ProviderHello(m, s, w)) =>
      if FitsLimits(ProviderHello(m, s, w)) && (v.trusted == [] || Matches(hash, v.trusted, did)) && s == Some([])
      then SentTo(v.entry, from, Rejected("provider disconnected")) else v.entry
    case Receive(from, _, ResponseChunk(x, delta, n)) =>
      if x == id then SentTo(v.entry, from, Chunk(delta, n)) else v.entry
    case Receive(from, _, ResponseDone(x, content, calls)) =>
      if x == id then SentTo(v.entry, from, Done(content, calls)) else v.entry
    case Receive(from, _, LlmError(x, message, code)) =>
      if x == id then SentTo(v.entry, from, Error(message, code)) else v.entry
    case Receive(_, _, OtherMessage) => v.entry
    case Disconnect(node) => SentTo(v.entry, node, Rejected("provider disconnected"))
    case SetTrusted(_) => v.entry
    case Register(x, p) => if x == id then Some(Pending(p, [])) else v.entry
    case Drop(x) => if x == id then None else v.entry
    case RejectAll(reason) => Queued(v.entry, Rejected(reason))
  }

  lemma SendToEntry(pending: map<string, Pending>, from: string, x: string, event: Event, id: string)
    ensures Get(Send(pending, from, x, event), id) == if x == id then SentTo(Get(pending, id), from, event)
              else Get(pending, id)
  {}

  lemma RejectEntry(s: State, node: string, id: string)
    ensures Get(Left(s, node).pending, id) == SentTo(Get(s.pending, id), node, Rejected("provider disconnected"))
    ensures Left(s, node).trusted == s.trusted
  {}

  lemma GreetEntry(hash: Hash, s: State, from: string, did: Option<string>, msg: Message, id: string)
    requires msg.ProviderHello?
    ensures var r := Greeted(hash, s, from, did, msg);
            && r.trusted == s.trusted
            && Get(r.pending, id) ==
                 if Eligible(hash, s, did, msg) && msg.services == Some([])
                 then SentTo(Get(s.pending, id), from, Rejected("provider disconnected"))
                 else Get(s.pending, id)
  {
    hide Matches, FitsLimits, InfoOf, Advertises, Left, Eligible;
    RejectEntry(s, from, id);
  }

  /** The view after a step depends on nothing but the view before it. */
  lemma ViewStep(hash: Hash, s: State, a: Action, id: string)
    ensures ViewOf(Step(hash, s, a), id)
              == View(if a.SetTrusted? then a.list else s.trusted, EntryAfter(hash, ViewOf(s, id), id, a))
  {
    hide Matches, FitsLimits, Greeted, Left, Send;
    match a
    case Receive(from, did, msg) =>
      match msg {
        case ProviderHello(_, _, _) => GreetEntry(hash, s, from, did, msg, id);
        case ResponseChunk(x, delta, n) => SendToEntry(s.pending, from, x, Chunk(delta, n), id);
        case ResponseDone(x, content, calls) => SendToEntry(s.pending, from, x, Done(content, calls), id);
        case LlmError(x, message, code) => SendToEntry(s.pending, from, x, Error(message, code), id);
        case OtherMessage =>
      }
    case Disconnect(node) => RejectEntry(s, node, id);
    case _ =>
  }

  lemma OthersHaveNoEffect(hash: Hash, s: State, a: Action, id: string, peer: string)
    requires BoundTo(ViewOf(s, id), peer) && !Concerns(a, id, peer)
    ensures ViewOf(Step(hash, s, a), id) == ViewOf(s, id)
  {
    hide Matches, FitsLimits, Step;
    ViewStep(hash, s, a, id);
  }

  lemma EqualViewsStayEqual(hash: Hash, s: State, t: State, a: Action, id: string, peer: string)
    requires ViewOf(s, id) == ViewOf(t, id) && BoundTo(ViewOf(s, id), peer)
    requires !(a.Register? && a.requestId == id)
    ensures ViewOf(Step(hash, s, a), id) == ViewOf(Step(hash, t, a), id)
    ensures BoundTo(ViewOf(Step(hash, s, a), id), peer)
  {
    hide Matches, FitsLimits, Step;
    ViewStep(hash, s, a, id);
    ViewStep(hash, t, a, id);
  }

  lemma {:induction false} OnlyRelevantCount(hash: Hash, s: State, t: State, actions: seq<Action>, id: string,
      peer: string)
    requires ViewOf(s, id) == ViewOf(t, id) && BoundTo(ViewOf(s, id), peer) && NotReused(actions, id)
    ensures ViewOf(Run(hash, s, actions), id) == ViewOf(Run(hash, t, Relevant(actions, id, peer)), id)
    decreases |actions|
  {
    hide Step, ViewOf, BoundTo;
    if actions != [] {
      var a, rest := actions[0], actions[1..];
      assert a in actions && forall x | x in rest :: x in actions;
      EqualViewsStayEqual(hash, s, t, a, id, peer);
      var relevant := Relevant(actions, id, peer);
      if Concerns(a, id, peer) {
        assert relevant[0] == a && relevant[1..] == Relevant(rest, id, peer);
        OnlyRelevantCount(hash, Step(hash, s, a), Step(hash, t, a), rest, id, peer);
      } else {
        assert relevant == Relevant(rest, id, peer);
        OthersHaveNoEffect(hash, s, a, id, peer);
        OnlyRelevantCount(hash, Step(hash, s, a), t, rest, id, peer);
      }
    }
  }

  /**
   Other peers cannot influence a request: two runs that agree on what its peer sends, on its
   peer's disconnects, on the trust list and on rejections of all give it the same events.
   */
  lemma NonInterference(hash: Hash, s: State, t: State, a: seq<Action>, b: seq<Action>, id: string, peer: string)
    requires s.trusted == t.trusted && id in s.pending && id in t.pending
    requires s.pending[id] == t.pending[id] && s.pending[id].peer == peer
    requires NotReused(a, id) && NotReused(b, id) && Relevant(a, id, peer) == Relevant(b, id, peer)
    ensures var x, y := Run(hash, s, a), Run(hash, t, b);
            (id in x.pending <==> id in y.pending) && (id in x.pending ==> x.pending[id].queue == y.pending[id].queue)
  {
    hide Run;
    OnlyRelevantCount(hash, s, s, a, id, peer);
    OnlyRelevantCount(hash, t, s, b, id, peer);
    assert ViewOf(Run(hash, s, a), id) == ViewOf(Run(hash, t, b), id);
  }

  // ---- Trust flags --------------------------------------------------------------------------

  /** Whether an action stores or renews a provider's entry. */
  predicate Stores(hash: Hash, s: State, a: Action) {
    a.Receive? && a.msg.ProviderHello? && Eligible(hash, s, a.did, a.msg) && a.msg.services != Some([])
    && (|s.catalog| < MAX_PROVIDERS || a.from in s.catalog)
  }

  function NextLists(hash: Hash, s: State, lists: map<string, seq<string>>, a: Action): map<string, seq<string>> {
    if Stores(hash, s, a) then lists[a.from := s.trusted] else lists
  }

  /** For each provider, the list that was in force when its entry was last stored. */
  function ListsAtHello(hash: Hash, s: State, lists: map<string, seq<string>>, actions: seq<Action>)
    : map<string, seq<string>>
    decreases |actions|
  {
    if actions == [] then lists
    else ListsAtHello(hash, Step(hash, s, actions[0]), NextLists(hash, s, lists, actions[0]), actions[1..])
  }

  /** An entry's flag says whether there was a list when it was stored. */
  ghost predicate FlagsTell(s: State, lists: map<string, seq<string>>) {
    forall n | n in s.catalog :: n in lists && (s.catalog[n].trusted <==> lists[n] != [])
  }

  /** A step keeps every entry, stores the one that said hello, or removes some. */
  lemma StepEntries(hash: Hash, s: State, a: Action)
    ensures var r := Step(hash, s, a);
            forall n | n in r.catalog ::
              if Stores(hash, s, a) && n == a.from then r.catalog[n] == InfoOf(hash, s.trusted, a.from, a.did, a.msg)
              else n in s.catalog && r.catalog[n] == s.catalog[n]
  {
    hide Matches, FitsLimits, InfoOf, Advertises;
  }

  lemma StepTells(hash: Hash, s: State, lists: map<string, seq<string>>, a: Action)
    requires FlagsTell(s, lists)
    ensures FlagsTell(Step(hash, s, a), NextLists(hash, s, lists, a))
  {
    hide Step, FitsLimits, Advertises;
    StepEntries(hash, s, a);
  }

  lemma {:induction false} RunTells(hash: Hash, s: State, lists: map<string, seq<string>>, actions: seq<Action>)
    requires FlagsTell(s, lists)
    ensures FlagsTell(Run(hash, s, actions), ListsAtHello(hash, s, lists, actions))
    decreases |actions|
  {
    hide Step, NextLists, FlagsTell;
    if actions != [] {
      var a := actions[0];
      StepTells(hash, s, lists, a);
      RunTells(hash, Step(hash, s, a), NextLists(hash, s, lists, a), actions[1..]);
    }
  }

  /**
   After every run, a provider's flag agrees with the current list exactly when the list at its last
   stored hello and the current one are both empty or both not.
   */
  lemma TrustFlagIsCurrent(hash: Hash, actions: seq<Action>, n: string)
    requires n in Run(hash, EMPTY, actions).catalog
    ensures var s, lists := Run(hash, EMPTY, actions), ListsAtHello(hash, EMPTY, map[], actions);
            && n in lists
            && (s.catalog[n].trusted == Matches(hash, s.trusted, s.catalog[n].did)
               <==> (lists[n] == [] <==> s.trusted == []))
  {
    hide Run, ListsAtHello;
    assert SoundCatalog(hash, EMPTY) && FlagsTell(EMPTY, map[]);
    RunKeeps(hash, EMPTY, actions);
    RunTells(hash, EMPTY, map[], actions);
  }

  /**
   The flag that `trusted` documents goes stale both ways: installing a list that names the provider leaves it
   false.
   */
  lemma TrustFlagGoesStale(hash: Hash, node: string, did: string)
    ensures var s := Run(hash, EMPTY, [Receive(node, Some(did), ProviderHello(None, None, None)), SetTrusted([did])]);
            && s.pinned.Some? && Matches(hash, s.trusted, s.pinned.value.did) && !s.pinned.value.trusted
  {
    hide Run;
    var a, b := Receive(node, Some(did), ProviderHello(None, None, None)), SetTrusted([did]);
    var s := Step(hash, EMPTY, a);
    assert s.pinned == Some(Provider(node, [], false, None, None, Some(did), false));
    assert did in [did];
    assert Matches(hash, [did], Some(did));
    RunTwo(hash, EMPTY, a, b);
  }

  /** And clearing the list leaves it true, though the list is empty. */
  lemma TrustFlagOutlivesItsList(hash: Hash, node: string, did: string)
    ensures var s := Run(hash, EMPTY,
              [SetTrusted([did]), Receive(node, Some(did), ProviderHello(None, None, None)), SetTrusted([])]);
            s.trusted == [] && s.pinned.Some? && s.pinned.value.trusted
  {
    hide Run;
    var a, b, c := SetTrusted([did]), Receive(node, Some(did), ProviderHello(None, None, None)), SetTrusted([]);
    var s := Step(hash, EMPTY, a);
    assert s == EMPTY.(trusted := [did]);
    assert did in [did];
    assert Matches(hash, [did], Some(did));
    assert Step(hash, s, b).pinned == Some(Provider(node, [], false, None, None, Some(did), true));
    assert [a, b, c][1..] == [b, c];
    assert Run(hash, EMPTY, [a, b, c]) == Run(hash, s, [b, c]) by { RunFirst(hash, EMPTY, [a, b, c]); }
    RunTwo(hash, s, b, c);
  }

  lemma RunFirst(hash: Hash, s: State, actions: seq<Action>)
    requires actions != []
    ensures Run(hash, s, actions) == Run(hash, Step(hash, s, actions[0]), actions[1..])
  {
    hide Step;
  }

  lemma RunTwo(hash: Hash, s: State, a: Action, b: Action)
    ensures Run(hash, s, [a, b]) == Step(hash, Step(hash, s, a), b)
  {
    hide Step;
    assert [a, b][1..] == [b] && [b][1..] == [];
    assert Run(hash, Step(hash, Step(hash, s, a), b), []) == Step(hash, Step(hash, s, a), b);
    assert Run(hash, Step(hash, s, a), [b]) == Step(hash, Step(hash, s, a), b);
  }

  // ---- What the list and the limits mean ----------------------------------------------------

  /** The list names the DID, or in any case the node id that it hashes to. */
  predicate OnList(hash: Hash, list: seq<string>, did: Option<string>) {
    did.Some? && exists t | t in list :: t == did.value || SameButCase(t, hash(did.value))
  }

  predicate Chats(services: Option<seq<string>>) {
    services.None? || exists i | 0 <= i < |services.value| :: services.value[i] == "chat"
  }

  /** At most so many values, each of at most so many bytes. */
  predicate Within(values: Option<seq<string>>, count: nat, size: nat) {
    values.Some? ==> |values.value| <= count && forall i | 0 <= i < |values.value| :: Size(values.value[i]) <= size
  }

  lemma ListMeans(hash: Hash, list: seq<string>, did: Option<string>)
    ensures Matches(hash, list, did) <==> OnList(hash, list, did)
  {
    hide ToLower, SameButCase;
    if did.Some? {
      forall t ensures ToLower(t) == ToLower(hash(did.value)) <==> SameButCase(t, hash(did.value)) {
        LowerIgnoresCase(t, hash(did.value));
      }
    }
  }

  lemma ChatMeans(services: Option<seq<string>>)
    ensures Advertises(services, CHAT) <==> Chats(services)
  {}

  lemma WithinMeans(values: Option<seq<string>>, count: nat, size: nat)
    ensures FitsList(values, count, size) <==> Within(values, count, size)
  {}

  lemma LimitsMean(msg: Message)
    requires msg.ProviderHello?
    ensures FitsLimits(msg) <==>
              Within(msg.models, 256, 512) && Within(msg.services, 32, 128) && Within(msg.voices, 256, 256)
  {
    hide FitsList, Within;
    WithinMeans(msg.models, 256, 512);
    WithinMeans(msg.services, 32, 128);
    WithinMeans(msg.voices, 256, 256);
  }

  /** After every run: at most 256 entries; with a list, all of them and the pin are on it; the pin chats. */
  lemma ListRules(hash: Hash, actions: seq<Action>)
    ensures var s := Run(hash, EMPTY, actions);
            && |s.catalog| <= 256
            && (s.trusted != [] ==> forall n | n in s.catalog :: OnList(hash, s.trusted, s.catalog[n].did))
            && (s.trusted != [] && s.pinned.Some? ==> OnList(hash, s.trusted, s.pinned.value.did))
            && (s.pinned.Some? ==> Chats(s.pinned.value.services))
  {
    hide Run, Matches, OnList, Advertises, Chats;
    assert SoundCatalog(hash, EMPTY);
    RunKeeps(hash, EMPTY, actions);
    var s := Run(hash, EMPTY, actions);
    forall n | n in s.catalog
      ensures Matches(hash, s.trusted, s.catalog[n].did) <==> OnList(hash, s.trusted, s.catalog[n].did)
    {
      ListMeans(hash, s.trusted, s.catalog[n].did);
    }
    if s.pinned.Some? {
      ChatMeans(s.pinned.value.services);
    }
  }

  /** A hello of a peer that is not on the list, or beyond the limits, changes nothing at all. */
  lemma StrangersAreIgnored(hash: Hash, s: State, from: string, did: Option<string>, msg: Message)
    requires msg.ProviderHello?
    requires || (s.trusted != [] && !OnList(hash, s.trusted, did))
             || !(Within(msg.models, 256, 512) && Within(msg.services, 32, 128) && Within(msg.voices, 256, 256))
    ensures Step(hash, s, Receive(from, did, msg)) == s
  {
    hide Matches, OnList, FitsLimits, Within, Advertises, Left;
    ListMeans(hash, s.trusted, did);
    LimitsMean(msg);
  }

  /** Any other hello with services is stored while there is room, with what it says, and the pin follows. */
  lemma HelloIsStored(hash: Hash, s: State, from: string, did: Option<string>, msg: Message)
    requires msg.ProviderHello? && (s.trusted == [] || OnList(hash, s.trusted, did))
    requires Within(msg.models, 256, 512) && Within(msg.services, 32, 128) && Within(msg.voices, 256, 256)
    requires msg.services != Some([])
    ensures var r := Step(hash, s, Receive(from, did, msg));
            var models := if msg.models.Some? then msg.models.value else [];
            var info := Provider(from, models, msg.models.Some?, msg.services, msg.voices, did, s.trusted != []);
            var mine := s.pinned.Some? && s.pinned.value.nodeId == from;
            if |s.catalog| >= 256 && from !in s.catalog then r == s
            else
              && r.catalog == s.catalog[from := info] && r.trusted == s.trusted && r.pending == s.pending
              && r.pinned == if Chats(msg.services) && (s.pinned.None? || mine) then Some(info)
                             else if mine then None else s.pinned
  {
    hide Matches, OnList, FitsLimits, Within, Advertises, Chats, Left;
    ListMeans(hash, s.trusted, did);
    NobodyOnEmptyList(hash, did);
    LimitsMean(msg);
    ChatMeans(msg.services);
  }

  lemma NobodyOnEmptyList(hash: Hash, did: Option<string>)
    ensures !OnList(hash, [], did)
  {}

  /** A hello without services, from a peer that may say hello, takes the peer out like a disconnect. */
  lemma EmptyHelloLeaves(hash: Hash, s: State, from: string, did: Option<string>, msg: Message)
    requires msg.ProviderHello? && (s.trusted == [] || OnList(hash, s.trusted, did))
    requires Within(msg.models, 256, 512) && msg.services == Some([]) && Within(msg.voices, 256, 256)
    ensures var r := Step(hash, s, Receive(from, did, msg));
            && r == Step(hash, s, Disconnect(from))
            && r.catalog == s.catalog - {from} && r.trusted == s.trusted
            && r.pinned == if s.pinned.Some? && s.pinned.value.nodeId == from then None else s.pinned
  {
    hide Matches, OnList, FitsLimits, Within, Advertises, RejectFrom;
    assert Within(msg.services, 32, 128) by { EmptyIsWithin(); }
    ListMeans(hash, s.trusted, did);
    LimitsMean(msg);
  }

  lemma EmptyIsWithin()
    ensures Within(Some([]), 32, 128)
  {}

  /** A new list keeps exactly the entries that are on it, and the pin if it is; no list keeps everything. */
  lemma NewListFilters(hash: Hash, s: State, list: seq<string>)
    ensures var r := Step(hash, s, SetTrusted(list));
            && r.trusted == list && r.pending == s.pending
            && (forall n :: n in r.catalog <==>
                  n in s.catalog && (list == [] || OnList(hash, list, s.catalog[n].did)))
            && (forall n | n in r.catalog :: r.catalog[n] == s.catalog[n])
            && r.pinned == if s.pinned.Some? && list != [] && !OnList(hash, list, s.pinned.value.did) then None
                           else s.pinned
  {
    hide Matches, OnList;
    forall did ensures Matches(hash, list, did) <==> OnList(hash, list, did) {
      ListMeans(hash, list, did);
    }
  }

  /** One event more for one request. */
  predicate OneMore(before: map<string, Pending>, after: map<string, Pending>, id: string, event: Event) {
    && after.Keys == before.Keys
    && forall k | k in before ::
         after[k].peer == before[k].peer &&
         after[k].queue == if k == id then before[k].queue + [event] else before[k].queue
  }

  /** What a provider says about a request reaches that request, if it is bound to this peer, and nothing else. */
  lemma EventsArrive(hash: Hash, s: State, from: string, did: Option<string>, id: string, delta: string,
      seqNo: Option<nat>, content: Option<string>, calls: Option<Json.Json>, text: string, code: Option<string>)
    ensures var bound := id in s.pending && s.pending[id].peer == from;
            var chunk := Step(hash, s, Receive(from, did, ResponseChunk(id, delta, seqNo)));
            var done := Step(hash, s, Receive(from, did, ResponseDone(id, content, calls)));
            var failed := Step(hash, s, Receive(from, did, LlmError(id, text, code)));
            && chunk == s.(pending := chunk.pending) && done == s.(pending := done.pending)
            && failed == s.(pending := failed.pending)
            && (if bound then
                  && OneMore(s.pending, chunk.pending, id, Chunk(delta, seqNo))
                  && OneMore(s.pending, done.pending, id, Done(content, calls))
                  && OneMore(s.pending, failed.pending, id, Error(text, code))
                else chunk == done == failed == s)
    ensures Step(hash, s, Receive(from, did, OtherMessage)) == s
  {}

  /** A peer that leaves takes its entry and its pin with it, and its requests are rejected. */
  lemma PeersLeave(hash: Hash, s: State, node: string)
    ensures var r := Step(hash, s, Disconnect(node));
            && r.trusted == s.trusted && node !in r.catalog && r.pending.Keys == s.pending.Keys
            && (forall n | n in s.catalog && n != node :: n in r.catalog && r.catalog[n] == s.catalog[n])
            && (forall n | n in r.catalog :: n in s.catalog)
            && (r.pinned == if s.pinned.Some? && s.pinned.value.nodeId == node then None else s.pinned)
            && forall k | k in s.pending ::
                 r.pending[k] == if s.pending[k].peer == node
                                 then Pending(node, s.pending[k].queue + [Rejected("provider disconnected")])
                                 else s.pending[k]
  {}

  /** A request is bound to a peer with nothing queued, is dropped, or is rejected with all others. */
  lemma RequestsComeAndGo(hash: Hash, s: State, id: string, peer: string, reason: string)
    ensures var r := Step(hash, s, Register(id, peer));
            r == s.(pending := r.pending) && id in r.pending && r.pending[id] == Pending(peer, [])
            && r.pending.Keys == s.pending.Keys + {id}
            && forall k | k in s.pending && k != id :: r.pending[k] == s.pending[k]
    ensures var r := Step(hash, s, Drop(id));
            r == s.(pending := r.pending) && r.pending.Keys == s.pending.Keys - {id}
            && forall k | k in r.pending :: r.pending[k] == s.pending[k]
    ensures var r := Step(hash, s, RejectAll(reason));
            r == s.(pending := r.pending) && r.pending.Keys == s.pending.Keys
            && forall k | k in s.pending ::
                 r.pending[k] == Pending(s.pending[k].peer, s.pending[k].queue + [Rejected(reason)])
  {}

  /** A chat provider that lists the model, if one is wanted. */
  predicate Serves(info: Provider, model: Option<string>) {
    Advertises(info.services, CHAT) && (model.None? || model.value in info.models)
  }

  lemma ServesExactlyWhen(info: Provider, model: Option<string>)
    ensures Serves(info, None) <==> Chats(info.services)
    ensures model.Some? ==>
              (Serves(info, model) <==>
                 Chats(info.services) && exists i | 0 <= i < |info.models| :: info.models[i] == model.value)
  {
    hide Advertises, Chats;
    ChatMeans(info.services);
  }

  // ---- The consumer -------------------------------------------------------------------------

  lemma StepRetrusts(hash: Hash, s: State, list: seq<string>)
    ensures Step(hash, s, SetTrusted(list)) == Retrusted(hash, s, list)
  {}

  lemma StepReceives(hash: Hash, s: State, from: string, did: Option<string>, msg: Message)
    ensures Step(hash, s, Receive(from, did, msg)) == Received(hash, s, from, did, msg)
  {}

  class Consumer {
    const hash: Hash
    var catalog: map<string, Provider>
    var pinned: Option<Provider>
    var trusted: seq<string>
    var pending: map<string, Pending>

    function Value(): State
      reads this
    {
      State(catalog, pinned, trusted, pending)
    }

    ghost predicate Valid()
      reads this
    {
      SoundCatalog(hash, Value())
    }

    constructor (hash: Hash)
      ensures Valid() && Value() == EMPTY && this.hash == hash
    {
      this.hash := hash;
      catalog, pinned, trusted, pending := map[], None, [], map[];
    }

    method SetTrustedProviders(list: seq<string>)
      requires Valid()
      modifies this
      ensures Valid() && Value() == Step(hash, old(Value()), SetTrusted(list))
    {
      hide Matches, SoundCatalog, Step;
      StepKeeps(hash, Value(), SetTrusted(list));
      StepRetrusts(hash, Value(), list);
      ghost var before := Value();
      trusted := list;
      catalog := map n | n in catalog && (list == [] || Matches(hash, list, catalog[n].did)) :: catalog[n];
      if list == [] {
        assert catalog == before.catalog;
        return;
      }
      if pinned.Some? && !Matches(hash, list, pinned.value.did) {
        pinned := None;
      }
      assert catalog == Retrusted(hash, before, list).catalog;
      assert Value() == Retrusted(hash, before, list);
    }

    /** Returns whether an accepted hello updated the catalog, and whether to greet a new pin. */
    method HandleMessage(from: string, did: Option<string>, msg: Message) returns (accepted: bool, locked: bool)
      requires Valid()
      modifies this
      ensures Valid() && Value() == Step(hash, old(Value()), Receive(from, did, msg))
      ensures accepted <==> msg.ProviderHello? && Eligible(hash, old(Value()), did, msg)
                            && (msg.services == Some([]) || from in catalog)
      ensures locked <==> old(pinned).None? && pinned.Some?
    {
      hide Matches, SoundCatalog, FitsLimits, Step, Advertises;
      StepKeeps(hash, Value(), Receive(from, did, msg));
      StepReceives(hash, Value(), from, did, msg);
      locked := false;
      match msg {
      case ProviderHello(models, services, voices) =>
        if !FitsLimits(msg) {
          return false, false;
        }
        var isTrusted := Matches(hash, trusted, did);
        if trusted != [] && !isTrusted {
          return false, false;
        }
        if services == Some([]) {
          OnPeerDisconnected(from);
          return true, false;
        }
        var info := Provider(from, models.GetOr([]), models.Some?, services, voices, did, isTrusted);
        if |catalog| < MAX_PROVIDERS || from in catalog {
          catalog := catalog[from := info];
        } else {
          return false, false;
        }
        if !Advertises(services, CHAT) {
          if pinned.Some? && pinned.value.nodeId == from {
            pinned := None;
          }
          return true, false;
        }
        match pinned {
        case None =>
          pinned := Some(info);
          locked := true;
        case Some(p) =>
          if p.nodeId == from {
            pinned := Some(p.(models := models.GetOr([]), modelsKnown := models.Some?, services := services,
                              voices := voices, did := did, trusted := isTrusted));
          }
        }
        return true, locked;
      case ResponseChunk(id, delta, seqNo) => SendEvent(from, id, Chunk(delta, seqNo));
      case ResponseDone(id, content, calls) => SendEvent(from, id, Done(content, calls));
      case LlmError(id, message, code) => SendEvent(from, id, Error(message, code));
      case OtherMessage =>
      }
      accepted := false;
    }

    method SendEvent(from: string, id: string, event: Event)
      requires Valid()
      modifies `pending
      ensures Valid() && pending == Send(old(pending), from, id, event)
    {
      hide Matches;
      if id in pending {
        if pending[id].peer == from {
          pending := pending[id := pending[id].(queue := pending[id].queue + [event])];
        }
      }
    }

    /** Rejects only the requests bound to the departing provider. */
    method OnPeerDisconnected(node: string)
      requires Valid()
      modifies this
      ensures Valid() && Value() == Left(old(Value()), node) && trusted == old(trusted)
    {
      hide Matches, SoundCatalog;
      LeavingKeeps(hash, Value(), node);
      catalog := catalog - {node};
      if pinned.Some? && pinned.value.nodeId == node {
        pinned := None;
      }
      pending := map id | id in pending ::
        if pending[id].peer == node then pending[id].(queue := pending[id].queue + [Rejected("provider disconnected")])
          else pending[id];
    }

    method RegisterRequest(id: string, peer: string)
      requires Valid()
      modifies `pending
      ensures Valid() && Value() == Step(hash, old(Value()), Register(id, peer))
    {
      hide Matches;
      pending := pending[id := Pending(peer, [])];
    }

    method DropRequest(id: string)
      requires Valid()
      modifies `pending
      ensures Valid() && Value() == Step(hash, old(Value()), Drop(id))
    {
      hide Matches;
      pending := pending - {id};
    }

    method RejectEverything(reason: string)
      requires Valid()
      modifies `pending
      ensures Valid() && Value() == Step(hash, old(Value()), RejectAll(reason))
    {
      hide Matches;
      pending := map id | id in pending :: pending[id].(queue := pending[id].queue + [Rejected(reason)]);
    }

    /**
     The provider for a request: the pin if it serves the model, else the first in the catalog that
     does, else a pin that lists no models. It is always in the catalog.
     */
    method ProviderForModel(model: Option<string>) returns (r: Option<Provider>)
      requires Valid()
      ensures (exists n | n in catalog :: Serves(catalog[n], model)) ==> r.Some? && Serves(r.value, model)
      ensures r.Some? ==>
                && r.value.nodeId in catalog && catalog[r.value.nodeId] == r.value
                && Advertises(r.value.services, CHAT)
      ensures r.Some? && !Serves(r.value, model) ==> r == pinned && r.value.models == []
      ensures pinned.Some? && Serves(pinned.value, model) ==> r == pinned
      ensures r.Some? && r != pinned ==>
                forall n | n in catalog && Serves(catalog[n], model) ::
                  n == r.value.nodeId || Json.Less(r.value.nodeId, n)
      ensures r.None? ==> pinned.None? || pinned.value.models != []
    {
      hide Matches, Json.Less, Advertises;
      if pinned.Some? && Serves(pinned.value, model) {
        return pinned;
      }
      r := FirstServing(model);
      if r.None? && pinned.Some? && pinned.value.models == [] {
        r := pinned;
      }
    }

    /** The entry with the least node id among those that serve the model. */
    method FirstServing(model: Option<string>) returns (r: Option<Provider>)
      requires Valid()
      ensures r.None? <==> forall n | n in catalog :: !Serves(catalog[n], model)
      ensures r.Some? ==>
                && r.value.nodeId in catalog && catalog[r.value.nodeId] == r.value && Serves(r.value, model)
                && forall n | n in catalog && Serves(catalog[n], model) ::
                   n == r.value.nodeId || Json.Less(r.value.nodeId, n)
    {
      hide Matches, Json.Less, Serves;
      r := None;
      var rest := catalog.Keys;
      while rest != {}
        invariant rest <= catalog.Keys
        invariant r.None? <==> forall n | n in catalog.Keys - rest :: !Serves(catalog[n], model)
        invariant r.Some? ==>
                    && r.value.nodeId in catalog.Keys - rest && catalog[r.value.nodeId] == r.value
                       && Serves(r.value, model)
                    && forall n | n in catalog.Keys - rest && Serves(catalog[n], model) ::
                       n == r.value.nodeId || Json.Less(r.value.nodeId, n)
        decreases rest
      {
        var n :| n in rest;
        rest := rest - {n};
        if Serves(catalog[n], model) {
          ghost var before := r;
          if r.None? || Json.Less(n, r.value.nodeId) {
            if before.Some? {
              forall m | m in catalog.Keys - rest && Serves(catalog[m], model) ensures m == n || Json.Less(n, m) {
                if m != n && m != before.value.nodeId {
                  Json.LessIsTransitive(n, before.value.nodeId, m);
                }
              }
            }
            r := Some(catalog[n]);
          } else {
            Json.LessIsTotal(n, r.value.nodeId);
          }
        }
      }
    }
  }
}
