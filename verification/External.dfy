/**
 Registrations of local applications, kept apart from the user's configuration and merged into it:
 the merge is a union, room by room.
 */
module External {
  import opened Wrappers
  import opened Text
  import opened Providers
  import Json

  datatype ExternalProvider = ExternalProvider(id: string, name: string, baseUrl: string, apiKey: string, enabled: bool)

  datatype ExternalRoom = ExternalRoom(room: string, consume: bool, provide: bool, shared: seq<ModelRef>)

  datatype Registration = Registration(owner: string, name: Option<string>, providers: seq<ExternalProvider>,
      rooms: seq<ExternalRoom>)

  // ---- Validation ---------------------------------------------------------------------------

  predicate IsLowerOrDigit(c: char) { 'a' <= c <= 'z' || '0' <= c <= '9' }

  predicate ValidOwner(owner: string) {
    && owner != "" && Size(owner) <= 32
    && IsLowerOrDigit(owner[0])
    && forall i | 0 <= i < |owner| :: IsLowerOrDigit(owner[i]) || owner[i] == '-'
  }

  predicate IsControl(c: char) { c < ' ' || 0x7F as char <= c <= 0x9F as char }

  predicate ValidText(s: string) {
    !IsBlank(s) && forall i | 0 <= i < |s| :: !IsControl(s[i])
  }

  predicate ValidRoomName(room: string) {
    && room != "" && Size(room) <= 64
    && forall i | 0 <= i < |room| ::
       'A' <= room[i] <= 'Z' || IsLowerOrDigit(room[i]) || room[i] == '_' || room[i] == '-'
  }

  /** A parsed URL, as far as registrations look at it. */
  datatype Url = Url(scheme: string, hasHost: bool, hasCredentials: bool)

  type UrlParser = string -> Option<Url>

  /** A text that starts with the room scheme does not parse to a web URL. */
  ghost predicate LawfulParser(parse: UrlParser) {
    forall s: string | ROOM_SCHEME <= s && parse(s).Some? :: parse(s).value.scheme !in ["http", "https"]
  }

  predicate ValidProvider(parse: UrlParser, p: ExternalProvider) {
    && ValidText(p.id) && ValidText(p.name)
    && parse(p.baseUrl).Some?
    && parse(p.baseUrl).value.scheme in ["http", "https"] && parse(p.baseUrl).value.hasHost
       && !parse(p.baseUrl).value.hasCredentials
  }

  function RefCount(rooms: seq<ExternalRoom>): nat {
    if rooms == [] then 0 else |rooms[0].shared| + RefCount(rooms[1..])
  }

  predicate HasProvider(providers: seq<ExternalProvider>, id: string) { exists p | p in providers :: p.id == id }

  predicate ValidRegistration(parse: UrlParser, r: Registration) {
    && ValidOwner(r.owner)
    && ValidText(r.name.GetOr(r.owner))
    && |r.providers| <= 64 && |r.rooms| <= 64
    && (forall p | p in r.providers :: ValidProvider(parse, p))
    && (forall i, j | 0 <= i < j < |r.providers| :: r.providers[i].id != r.providers[j].id)
    && (forall room | room in r.rooms :: ValidRoomName(room.room))
    && (forall i, j | 0 <= i < j < |r.rooms| :: r.rooms[i].room != r.rooms[j].room)
    && RefCount(r.rooms) <= 512
    && (forall room | room in r.rooms ::
          forall ref | ref in room.shared :: HasProvider(r.providers, ref.providerId) && ValidText(ref.model))
  }

  /** A registration as it is stored: the label defaults to the owner. */
  function Labelled(r: Registration): Registration { r.(name := Some(r.name.GetOr(r.owner))) }

  lemma RoomNameIsNotBlank(room: string)
    requires ValidRoomName(room)
    ensures !IsBlank(room)
  {
    hide IsWhitespace;
    WhitespaceFacts();
    TrimmedAlready(room);
  }

  lemma OwnerHasNoColon(owner: string)
    requires ValidOwner(owner)
    ensures ':' !in owner
  {
    assert forall i | 0 <= i < |owner| :: owner[i] != ':';
  }

  // ---- Merging ------------------------------------------------------------------------------

  /** What one owner adds, in order: its providers, then its rooms. */
  datatype Op = Push(owner: string, provider: ExternalProvider) | Share(owner: string, room: ExternalRoom)

  function ProviderOps(owner: string, providers: seq<ExternalProvider>): seq<Op> {
    if providers == [] then [] else [Push(owner, providers[0])] + ProviderOps(owner, providers[1..])
  }

  function RoomOps(owner: string, rooms: seq<ExternalRoom>): seq<Op> {
    if rooms == [] then [] else [Share(owner, rooms[0])] + RoomOps(owner, rooms[1..])
  }

  function OpsOf(regs: seq<Registration>): seq<Op> {
    if regs == [] then []
    else ProviderOps(regs[0].owner, regs[0].providers) + (RoomOps(regs[0].owner, regs[0].rooms) + OpsOf(regs[1..]))
  }

  function ProviderId(owner: string, id: string): string { "ext:" + owner + ":" + id }

  function RoomId(owner: string, room: string): string { "ext:" + owner + ":room:" + room }

  function Mapped(owner: string, refs: seq<ModelRef>): (r: seq<ModelRef>)
    ensures |r| == |refs|
  {
    seq(|refs|, i requires 0 <= i < |refs| => ModelRef(ProviderId(owner, refs[i].providerId), refs[i].model))
  }

  /** Adds references that are not yet in the list. */
  function AddRefs(shared: seq<ModelRef>, refs: seq<ModelRef>): seq<ModelRef>
    decreases |refs|
  {
    if refs == [] then shared
    else AddRefs(if refs[0] in shared then shared else shared + [refs[0]], refs[1..])
  }

  function Synthetic(owner: string, room: string): Provider {
    NewProvider(RoomId(owner, room), room, ROOM_SCHEME + room, "")
  }

  function Imported(owner: string, p: ExternalProvider): Provider {
    NewProvider(ProviderId(owner, p.id), p.name, p.baseUrl, p.apiKey).(enabled := p.enabled)
  }

  /** Some provider for the room is switched off. */
  predicate Disabled(ps: seq<Provider>, room: string) {
    exists p | p in ps :: !p.enabled && RoomOf(p) == Some(room)
  }

  /** A provider with a room's offer added. */
  function Enriched(p: Provider, owner: string, room: ExternalRoom): Provider {
    p.(provide := p.provide || room.provide, shared := AddRefs(p.shared, Mapped(owner, room.shared)))
  }

  /** The list with the offer in its first provider for the room. */
  function EnrichFirst(ps: seq<Provider>, owner: string, room: ExternalRoom): seq<Provider> {
    if ps == [] then [Enriched(Synthetic(owner, room.room), owner, room)]
    else if RoomOf(ps[0]) == Some(room.room) then [Enriched(ps[0], owner, room)] + ps[1..]
    else [ps[0]] + EnrichFirst(ps[1..], owner, room)
  }

  function ApplyOp(ps: seq<Provider>, op: Op): seq<Provider> {
    match op
    case Push(owner, p) => ps + [Imported(owner, p)]
    case Share(owner, room) => if Disabled(ps, room.room) then ps else EnrichFirst(ps, owner, room)
  }

  function ApplyAll(ps: seq<Provider>, ops: seq<Op>): seq<Provider>
    decreases |ops|
  {
    if ops == [] then ps else ApplyAll(ApplyOp(ps, ops[0]), ops[1..])
  }

  function Merged(regs: seq<Registration>, user: seq<Provider>): seq<Provider> { ApplyAll(user, OpsOf(regs)) }

  // ---- One step, seen by room ---------------------------------------------------------------

  /** Operations of valid registrations: providers are no rooms, room names are not blank. */
  ghost predicate GoodOp(op: Op) {
    match op
    case Push(owner, p) => !(ROOM_SCHEME <= p.baseUrl)
    case Share(owner, room) => !IsBlank(room.room)
  }

  ghost predicate GoodOps(ops: seq<Op>) { forall op | op in ops :: GoodOp(op) }

  lemma {:induction false} FirstForAppend(ps: seq<Provider>, p: Provider, room: string)
    ensures FirstFor(ps + [p], room) ==
              if FirstFor(ps, room).Some? then FirstFor(ps, room) else if RoomOf(p) == Some(room) then Some(p) else None
  {
    hide RoomOf;
    if ps == [] {
      assert (ps + [p])[1..] == [];
    } else {
      assert (ps + [p])[1..] == ps[1..] + [p];
      FirstForAppend(ps[1..], p, room);
    }
  }

  lemma {:induction false} FirstForEnriched(ps: seq<Provider>, owner: string, room: ExternalRoom, r: string)
    requires !IsBlank(room.room)
    ensures FirstFor(EnrichFirst(ps, owner, room), r) ==
              if r != room.room then FirstFor(ps, r)
              else Some(Enriched(FirstFor(ps, r).GetOr(Synthetic(owner, r)), owner, room))
  {
    hide IsBlank, RoomOf, AddRefs;
    RoomOfUrl(Enriched(Synthetic(owner, room.room), owner, room), room.room);
    if ps == [] {
      assert EnrichFirst(ps, owner, room)[1..] == [];
    } else {
      SameRoom(ps[0], Enriched(ps[0], owner, room));
      FirstForEnriched(ps[1..], owner, room, r);
    }
  }

  lemma {:induction false} DisabledEnriched(ps: seq<Provider>, owner: string, room: ExternalRoom, r: string)
    ensures Disabled(EnrichFirst(ps, owner, room), r) == Disabled(ps, r)
  {
    hide RoomOf, AddRefs;
    if ps != [] {
      DisabledCons(ps, r);
      DisabledCons(EnrichFirst(ps, owner, room), r);
      SameRoom(ps[0], Enriched(ps[0], owner, room));
      DisabledEnriched(ps[1..], owner, room, r);
    }
  }

  lemma DisabledCons(ps: seq<Provider>, r: string)
    requires ps != []
    ensures Disabled(ps, r) <==> (!ps[0].enabled && RoomOf(ps[0]) == Some(r)) || Disabled(ps[1..], r)
  {
    hide RoomOf;
    assert forall p :: p in ps <==> p == ps[0] || p in ps[1..];
  }

  /** A step concerns one room; which rooms the user disabled never changes. */
  lemma StepByRoom(ps: seq<Provider>, op: Op, r: string)
    requires GoodOp(op)
    ensures Disabled(ApplyOp(ps, op), r) == Disabled(ps, r)
    ensures FirstFor(ApplyOp(ps, op), r) ==
              if op.Share? && op.room.room == r && !Disabled(ps, r)
              then Some(Enriched(FirstFor(ps, r).GetOr(Synthetic(op.owner, r)), op.owner, op.room))
              else FirstFor(ps, r)
  {
    hide IsBlank, RoomOf, AddRefs, EnrichFirst;
    match op
    case Push(owner, p) =>
      NoRoom(Imported(owner, p));
      FirstForAppend(ps, Imported(owner, p), r);
      assert forall q :: q in ps + [Imported(owner, p)] <==> q in ps || q == Imported(owner, p);
    case Share(owner, room) =>
      FirstForEnriched(ps, owner, room, r);
      DisabledEnriched(ps, owner, room, r);
  }

  lemma NoRoom(p: Provider)
    requires !(ROOM_SCHEME <= p.baseUrl)
    ensures RoomOf(p) == None
  {}

  // ---- The union ----------------------------------------------------------------------------

  /** Some registration offers to provide the room. */
  predicate AnyProvides(ops: seq<Op>, room: string) {
    exists op | op in ops :: op.Share? && op.room.room == room && op.room.provide
  }

  predicate Registered(ops: seq<Op>, room: string) {
    exists op | op in ops :: op.Share? && op.room.room == room
  }

  /** All references registered for a room, in owner order. */
  function RefsFor(ops: seq<Op>, room: string): seq<ModelRef> {
    if ops == [] then []
    else
      var mine := ops[0].Share? && ops[0].room.room == room;
      (if mine then Mapped(ops[0].owner, ops[0].room.shared) else []) + RefsFor(ops[1..], room)
  }

  /** The first owner to register a room. */
  function FirstOwner(ops: seq<Op>, room: string): string
    requires Registered(ops, room)
  {
    if ops[0].Share? && ops[0].room.room == room then ops[0].owner
    else assert Registered(ops[1..], room); FirstOwner(ops[1..], room)
  }

  lemma {:induction false} AddRefsTwice(shared: seq<ModelRef>, a: seq<ModelRef>, b: seq<ModelRef>)
    ensures AddRefs(AddRefs(shared, a), b) == AddRefs(shared, a + b)
    decreases |a|
  {
    if a == [] {
      assert a + b == b;
    } else {
      assert (a + b)[1..] == a[1..] + b;
      AddRefsTwice(if a[0] in shared then shared else shared + [a[0]], a[1..], b);
    }
  }

  /** Adding keeps the list, adds exactly what was missing, and repeats nothing new. */
  lemma {:induction false} AddRefsIsUnion(shared: seq<ModelRef>, refs: seq<ModelRef>)
    ensures shared <= AddRefs(shared, refs)
    ensures forall x :: x in AddRefs(shared, refs) <==> x in shared || x in refs
    ensures var r := AddRefs(shared, refs); forall i, j | 0 <= i < j < |r| && |shared| <= j :: r[i] != r[j]
    decreases |refs|
  {
    if refs != [] {
      var next := if refs[0] in shared then shared else shared + [refs[0]];
      AddRefsIsUnion(next, refs[1..]);
      var r := AddRefs(shared, refs);
      forall i, j | 0 <= i < j < |r| && |shared| <= j ensures r[i] != r[j] {
        if j < |next| {
          assert r[i] == shared[i] && r[j] == refs[0];
        }
      }
    }
  }

  /** What a room's first provider becomes. */
  ghost predicate IsUnion(before: Option<Provider>, after: Option<Provider>, ops: seq<Op>, room: string) {
    if !Registered(ops, room) then after == before
    else
      var base := before.GetOr(Synthetic(FirstOwner(ops, room), room));
      var provide, shared := base.provide || AnyProvides(ops, room), AddRefs(base.shared, RefsFor(ops, room));
      after == Some(base.(provide := provide, shared := shared))
  }

  lemma {:induction false} RegisteredCons(ops: seq<Op>, room: string)
    requires ops != []
    ensures var mine := ops[0].Share? && ops[0].room.room == room;
            && (Registered(ops, room) <==> mine || Registered(ops[1..], room))
            && (AnyProvides(ops, room) <==> (mine && ops[0].room.provide) || AnyProvides(ops[1..], room))
  {
    assert forall op :: op in ops <==> op == ops[0] || op in ops[1..];
  }

  lemma NoRefs(ops: seq<Op>, room: string)
    requires !Registered(ops, room)
    ensures RefsFor(ops, room) == [] && !AnyProvides(ops, room)
  {
    if ops != [] {
      RegisteredCons(ops, room);
      NoRefs(ops[1..], room);
    }
  }

  lemma {:induction false} ApplyAllByRoom(ps: seq<Provider>, ops: seq<Op>, r: string)
    requires GoodOps(ops)
    ensures Disabled(ApplyAll(ps, ops), r) == Disabled(ps, r)
    ensures Disabled(ps, r) ==> FirstFor(ApplyAll(ps, ops), r) == FirstFor(ps, r)
    ensures !Disabled(ps, r) ==> IsUnion(FirstFor(ps, r), FirstFor(ApplyAll(ps, ops), r), ops, r)
    decreases |ops|
  {
    hide Disabled, FirstFor, ApplyOp, Registered, AnyProvides, GoodOp;
    if ops == [] {
      NothingRegistered(r);
    } else {
      assert ops[0] in ops && forall op | op in ops[1..] :: op in ops;
      var next := ApplyOp(ps, ops[0]);
      StepByRoom(ps, ops[0], r);
      ApplyAllByRoom(next, ops[1..], r);
      RegisteredCons(ops, r);
      if !Registered(ops[1..], r) {
        NoRefs(ops[1..], r);
      }
      if ops[0].Share? && ops[0].room.room == r {
        var base := FirstFor(ps, r).GetOr(Synthetic(ops[0].owner, r));
        var refs := Mapped(ops[0].owner, ops[0].room.shared);
        AddRefsTwice(base.shared, refs, RefsFor(ops[1..], r));
        assert refs + [] == refs;
      } else {
        assert [] + RefsFor(ops[1..], r) == RefsFor(ops[1..], r);
      }
    }
  }

  lemma NothingRegistered(r: string)
    ensures !Registered([], r)
  {}

  // ---- What the merge leaves alone ----------------------------------------------------------

  predicate IsFirst(ps: seq<Provider>, i: nat)
    requires i < |ps|
  {
    forall j | 0 <= j < i :: RoomOf(ps[j]) != RoomOf(ps[i])
  }

  /** Only `provide` and the shared models may differ. */
  predicate SameSettings(p: Provider, q: Provider) { q == p.(provide := q.provide, shared := q.shared) }

  lemma {:induction false} EnrichedAt(ps: seq<Provider>, owner: string, room: ExternalRoom, i: nat)
    requires i < |ps|
    ensures |EnrichFirst(ps, owner, room)| >= |ps|
    ensures EnrichFirst(ps, owner, room)[i] ==
              if RoomOf(ps[i]) == Some(room.room) && IsFirst(ps, i) then Enriched(ps[i], owner, room) else ps[i]
  {
    hide RoomOf, AddRefs;
    EnrichAddsOnlyNew(ps, owner, room);
    if RoomOf(ps[0]) != Some(room.room) && i > 0 {
      EnrichedAt(ps[1..], owner, room, i - 1);
      assert IsFirst(ps, i) && RoomOf(ps[i]) == Some(room.room) ==> IsFirst(ps[1..], i - 1);
      if RoomOf(ps[i]) == Some(room.room) && IsFirst(ps[1..], i - 1) {
        assert forall j | 0 < j < i :: ps[j] == ps[1..][j - 1];
      }
    }
  }

  lemma StepAt(ps: seq<Provider>, op: Op, i: nat)
    requires i < |ps|
    ensures var next := ApplyOp(ps, op);
            && i < |next| && SameSettings(ps[i], next[i]) && RoomOf(next[i]) == RoomOf(ps[i])
            && (next[i] == ps[i] || (op.Share? && RoomOf(ps[i]) == Some(op.room.room) && IsFirst(ps, i)
               && !Disabled(ps, op.room.room)))
  {
    hide RoomOf, AddRefs, EnrichFirst, IsFirst, Disabled;
    if op.Share? {
      EnrichedAt(ps, op.owner, op.room, i);
      SameRoom(ps[i], Enriched(ps[i], op.owner, op.room));
    }
  }

  lemma FirstIsKept(ps: seq<Provider>, op: Op, i: nat)
    requires i < |ps|
    ensures i < |ApplyOp(ps, op)| && IsFirst(ApplyOp(ps, op), i) == IsFirst(ps, i)
  {
    hide RoomOf, ApplyOp, SameSettings;
    StepAt(ps, op, i);
    forall j | 0 <= j < i ensures RoomOf(ApplyOp(ps, op)[j]) == RoomOf(ps[j]) {
      StepAt(ps, op, j);
    }
  }

  /**
   A user's provider keeps its place and all settings; it changes at all only if it is the first
   for a registered room that is not disabled.
   */
  lemma {:induction false} UserProvidersAreKept(ps: seq<Provider>, ops: seq<Op>, i: nat)
    requires GoodOps(ops) && i < |ps|
    ensures var r := ApplyAll(ps, ops);
            && i < |r| && SameSettings(ps[i], r[i])
            && (r[i] != ps[i] ==> RoomOf(ps[i]).Some? && IsFirst(ps, i)
                                  && Registered(ops, RoomOf(ps[i]).value) && !Disabled(ps, RoomOf(ps[i]).value))
    decreases |ops|
  {
    hide RoomOf, ApplyOp, Disabled, IsFirst, Registered, GoodOp;
    if ops != [] {
      assert ops[0] in ops && forall op | op in ops[1..] :: op in ops;
      var next := ApplyOp(ps, ops[0]);
      StepAt(ps, ops[0], i);
      FirstIsKept(ps, ops[0], i);
      UserProvidersAreKept(next, ops[1..], i);
      if RoomOf(ps[i]).Some? {
        StepByRoom(ps, ops[0], RoomOf(ps[i]).value);
        RegisteredCons(ops, RoomOf(ps[i]).value);
      }
    }
  }

  /** From place `n` on, a provider for a room is the only one for it. */
  ghost predicate AddedRoomsAreAlone(ps: seq<Provider>, n: nat) {
    forall i, j | 0 <= i < |ps| && n <= j < |ps| && i != j && RoomOf(ps[j]).Some? :: RoomOf(ps[i]) != RoomOf(ps[j])
  }

  lemma {:induction false} EnrichAddsOnlyNew(ps: seq<Provider>, owner: string, room: ExternalRoom)
    ensures var e := EnrichFirst(ps, owner, room);
            if FirstFor(ps, room.room).Some? then |e| == |ps|
            else e == ps + [Enriched(Synthetic(owner, room.room), owner, room)]
  {
    hide RoomOf, AddRefs;
    if ps != [] {
      EnrichAddsOnlyNew(ps[1..], owner, room);
      assert ps == [ps[0]] + ps[1..];
    }
  }

  lemma {:induction false} NoneFor(ps: seq<Provider>, room: string)
    requires FirstFor(ps, room).None?
    ensures forall i | 0 <= i < |ps| :: RoomOf(ps[i]) != Some(room)
  {
    hide RoomOf;
    if ps != [] {
      NoneFor(ps[1..], room);
    }
  }

  lemma StepAddsAlone(ps: seq<Provider>, op: Op, n: nat)
    requires GoodOp(op) && n <= |ps| && AddedRoomsAreAlone(ps, n)
    ensures n <= |ApplyOp(ps, op)| && AddedRoomsAreAlone(ApplyOp(ps, op), n)
  {
    hide RoomOf, IsBlank, EnrichFirst, Disabled, SameSettings, AddRefs;
    var next := ApplyOp(ps, op);
    forall i | 0 <= i < |ps| ensures i < |next| && RoomOf(next[i]) == RoomOf(ps[i]) {
      StepAt(ps, op, i);
    }
    if op.Push? {
      NoRoom(Imported(op.owner, op.provider));
    } else {
      EnrichAddsOnlyNew(ps, op.owner, op.room);
      if FirstFor(ps, op.room.room).None? {
        NoneFor(ps, op.room.room);
        RoomOfUrl(Enriched(Synthetic(op.owner, op.room.room), op.owner, op.room), op.room.room);
      }
    }
  }

  /** At most one provider is added for a room, and only where the user has none. */
  lemma {:induction false} OneSyntheticPerRoom(ps: seq<Provider>, ops: seq<Op>, n: nat)
    requires GoodOps(ops) && n <= |ps| && AddedRoomsAreAlone(ps, n)
    ensures AddedRoomsAreAlone(ApplyAll(ps, ops), n)
    decreases |ops|
  {
    hide ApplyOp, AddedRoomsAreAlone, GoodOp;
    if ops != [] {
      assert ops[0] in ops && forall op | op in ops[1..] :: op in ops;
      StepAddsAlone(ps, ops[0], n);
      OneSyntheticPerRoom(ApplyOp(ps, ops[0]), ops[1..], n);
    }
  }

  // ---- Ids ----------------------------------------------------------------------------------

  /** What an added provider's id names. */
  datatype Key = ProviderKey(owner: string, id: string) | RoomKey(owner: string, room: string)

  function KeyText(k: Key): string {
    match k
    case ProviderKey(owner, id) => ProviderId(owner, id)
    case RoomKey(owner, room) => RoomId(owner, room)
  }

  function OpKey(op: Op): Key {
    match op
    case Push(owner, p) => ProviderKey(owner, p.id)
    case Share(owner, room) => RoomKey(owner, room.room)
  }

  /** Whether a step adds a provider. */
  predicate Adds(ps: seq<Provider>, op: Op) {
    op.Push? || (!Disabled(ps, op.room.room) && FirstFor(ps, op.room.room).None?)
  }

  function AddedKeys(ps: seq<Provider>, ops: seq<Op>): seq<Key>
    decreases |ops|
  {
    if ops == [] then []
    else (if Adds(ps, ops[0]) then [OpKey(ops[0])] else []) + AddedKeys(ApplyOp(ps, ops[0]), ops[1..])
  }

  function Ids(ps: seq<Provider>): (r: seq<string>)
    ensures |r| == |ps|
  {
    seq(|ps|, i requires 0 <= i < |ps| => ps[i].id)
  }

  function KeyTexts(keys: seq<Key>): (r: seq<string>)
    ensures |r| == |keys|
  {
    seq(|keys|, i requires 0 <= i < |keys| => KeyText(keys[i]))
  }

  lemma StepIds(ps: seq<Provider>, op: Op)
    ensures Ids(ApplyOp(ps, op)) == Ids(ps) + if Adds(ps, op) then [KeyText(OpKey(op))] else []
  {
    hide RoomOf, EnrichFirst, Disabled, AddRefs, IsFirst;
    var next := ApplyOp(ps, op);
    forall i | 0 <= i < |ps| ensures i < |next| && next[i].id == ps[i].id {
      StepAt(ps, op, i);
    }
    if op.Share? {
      EnrichAddsOnlyNew(ps, op.owner, op.room);
    }
  }

  /** The ids after the merge: the user's, then those of the added providers. */
  lemma {:induction false} MergedIds(ps: seq<Provider>, ops: seq<Op>)
    ensures Ids(ApplyAll(ps, ops)) == Ids(ps) + KeyTexts(AddedKeys(ps, ops))
    decreases |ops|
  {
    hide ApplyOp, Adds, KeyText, OpKey;
    if ops != [] {
      StepIds(ps, ops[0]);
      MergedIds(ApplyOp(ps, ops[0]), ops[1..]);
      assert Ids(ApplyAll(ps, ops)) == Ids(ps) + KeyTexts(AddedKeys(ps, ops));
    }
  }

  predicate AllDifferent<T(==)>(s: seq<T>) { forall i, j | 0 <= i < j < |s| :: s[i] != s[j] }

  predicate DistinctOpKeys(ops: seq<Op>) { forall i, j | 0 <= i < j < |ops| :: OpKey(ops[i]) != OpKey(ops[j]) }

  lemma {:induction false} AddedKeysAreDistinct(ps: seq<Provider>, ops: seq<Op>)
    requires DistinctOpKeys(ops)
    ensures forall k | k in AddedKeys(ps, ops) :: exists op :: op in ops && OpKey(op) == k
    ensures AllDifferent(AddedKeys(ps, ops))
    decreases |ops|
  {
    hide ApplyOp, Adds, OpKey;
    if ops != [] {
      var rest := ops[1..];
      AddedKeysAreDistinct(ApplyOp(ps, ops[0]), rest);
      var tail := AddedKeys(ApplyOp(ps, ops[0]), rest);
      forall k | k in tail ensures k != OpKey(ops[0]) && exists op :: op in ops && OpKey(op) == k {
        var op :| op in rest && OpKey(op) == k;
        var i :| 0 <= i < |rest| && rest[i] == op;
        assert ops[i + 1] == op && op in ops;
      }
      assert ops[0] in ops;
      assert AddedKeys(ps, ops) == if Adds(ps, ops[0]) then [OpKey(ops[0])] + tail else tail;
      DistinctCons(OpKey(ops[0]), tail);
    }
  }

  lemma DistinctCons(k: Key, tail: seq<Key>)
    requires k !in tail && AllDifferent(tail)
    ensures AllDifferent([k] + tail)
  {
    var ks := [k] + tail;
    forall i, j | 0 <= i < j < |ks| ensures ks[i] != ks[j] {
      assert ks[j] == tail[j - 1];
    }
  }

  /** Ids tell different owners apart; within one owner only a provider `room:x` meets the room `x`. */
  lemma IdsTellOwnersApart(a: Key, b: Key)
    requires ValidOwner(a.owner) && ValidOwner(b.owner) && KeyText(a) == KeyText(b)
    ensures a.owner == b.owner
    ensures a == b || (a.ProviderKey? && b.RoomKey? && a.id == "room:" + b.room)
              || (b.ProviderKey? && a.RoomKey? && b.id == "room:" + a.room)
  {
    hide ValidOwner;
    OwnerHasNoColon(a.owner);
    OwnerHasNoColon(b.owner);
    KeyShape(a);
    KeyShape(b);
    var s, t := Local(a), Local(b);
    IndexOfSplit(a.owner, ':', s);
    IndexOfSplit(b.owner, ':', t);
    assert KeyText(a)[4..] == a.owner + ":" + s && KeyText(b)[4..] == b.owner + ":" + t;
    var x, y := a.owner + ":" + s, b.owner + ":" + t;
    assert x[..|a.owner|] == a.owner && y[..|b.owner|] == b.owner;
    assert x[|a.owner| + 1..] == s && y[|b.owner| + 1..] == t;
    assert s == t;
    if a.RoomKey? {
      RoomPrefix(a);
    }
    if b.RoomKey? {
      RoomPrefix(b);
    }
  }

  function Local(k: Key): string {
    match k
    case ProviderKey(_, id) => id
    case RoomKey(_, room) => "room:" + room
  }

  lemma KeyShape(k: Key)
    ensures KeyText(k) == "ext:" + (k.owner + ":" + Local(k))
  {
    match k
    case ProviderKey(owner, id) => assert ProviderId(owner, id) == "ext:" + (owner + ":" + id);
    case RoomKey(owner, room) => assert RoomId(owner, room) == "ext:" + (owner + ":" + ("room:" + room));
  }

  lemma RoomPrefix(k: Key)
    requires k.RoomKey?
    ensures Local(k)[5..] == k.room
  {}

  /** No owner has both a provider `room:x` and an added room `x`. */
  predicate NoClash(keys: seq<Key>) {
    forall a, b | a in keys && b in keys && a.ProviderKey? && b.RoomKey? && a.owner == b.owner ::
      a.id != "room:" + b.room
  }

  /** The ids of added providers are all different, except for such a clash within one owner. */
  lemma AddedIdsAreDistinct(ps: seq<Provider>, ops: seq<Op>)
    requires DistinctOpKeys(ops) && forall op | op in ops :: ValidOwner(op.owner)
    ensures AllDifferent(KeyTexts(AddedKeys(ps, ops))) <==> NoClash(AddedKeys(ps, ops))
  {
    hide ApplyOp, Adds, ValidOwner, DistinctOpKeys, KeyText, AddedKeys;
    AddedKeysAreDistinct(ps, ops);
    var keys := AddedKeys(ps, ops);
    var texts := KeyTexts(keys);
    forall k | k in keys ensures ValidOwner(k.owner) {
      var op :| op in ops && OpKey(op) == k;
    }
    if NoClash(keys) {
      forall i, j | 0 <= i < j < |texts| ensures texts[i] != texts[j] {
        assert keys[i] in keys && keys[j] in keys;
        assert keys[i] != keys[j] && texts[i] == KeyText(keys[i]) && texts[j] == KeyText(keys[j]);
        if KeyText(keys[i]) == KeyText(keys[j]) {
          IdsTellOwnersApart(keys[i], keys[j]);
        }
      }
    }
    if AllDifferent(texts) {
      forall a, b | a in keys && b in keys && a.ProviderKey? && b.RoomKey? && a.owner == b.owner
        ensures a.id != "room:" + b.room
      {
        KeyShape(a);
        KeyShape(b);
        var i :| 0 <= i < |keys| && keys[i] == a;
        var j :| 0 <= j < |keys| && keys[j] == b;
        assert i != j && texts[i] == KeyText(a) && texts[j] == KeyText(b);
      }
    }
  }

  /** Exactly which rooms and providers are added. */
  lemma {:induction false} AddedExactly(ps: seq<Provider>, ops: seq<Op>, owner: string, name: string)
    requires GoodOps(ops)
    ensures RoomKey(owner, name) in AddedKeys(ps, ops) <==>
              FirstFor(ps, name).None? && Registered(ops, name) && FirstOwner(ops, name) == owner
    ensures ProviderKey(owner, name) in AddedKeys(ps, ops) <==> exists op | op in ops ::
              op.Push? && op.owner == owner && op.provider.id == name
    decreases |ops|
  {
    hide ApplyOp, FirstFor, Disabled, GoodOp, Registered;
    if ops == [] {
      NothingRegistered(name);
    } else {
      assert ops[0] in ops && forall op | op in ops[1..] :: op in ops;
      AddedExactly(ApplyOp(ps, ops[0]), ops[1..], owner, name);
      StepByRoom(ps, ops[0], name);
      RegisteredCons(ops, name);
      if Disabled(ps, name) {
        DisabledIsPresent(ps, name);
      }
      assert forall op :: op in ops <==> op == ops[0] || op in ops[1..];
    }
  }

  lemma DisabledIsPresent(ps: seq<Provider>, room: string)
    requires Disabled(ps, room)
    ensures FirstFor(ps, room).Some?
  {
    hide RoomOf;
    if FirstFor(ps, room).None? {
      NoneFor(ps, room);
    }
  }

  // ---- Valid registrations ------------------------------------------------------------------

  /** Registrations in the order of their owners, each valid and stored with its name. */
  ghost predicate ValidRegistrations(parse: UrlParser, regs: seq<Registration>) {
    && (forall r | r in regs :: ValidRegistration(parse, r))
    && (forall i, j | 0 <= i < j < |regs| :: Json.Less(regs[i].owner, regs[j].owner))
  }

  /** An operation that a registration asks for. */
  predicate Asks(r: Registration, op: Op) {
    op.owner == r.owner && match op case Push(_, p) => p in r.providers case Share(_, room) => room in r.rooms
  }

  lemma {:induction false} ProviderOpsAre(owner: string, providers: seq<ExternalProvider>)
    ensures |ProviderOps(owner, providers)| == |providers|
    ensures forall i | 0 <= i < |providers| :: ProviderOps(owner, providers)[i] == Push(owner, providers[i])
  {
    if providers != [] {
      ProviderOpsAre(owner, providers[1..]);
    }
  }

  lemma {:induction false} RoomOpsAre(owner: string, rooms: seq<ExternalRoom>)
    ensures |RoomOps(owner, rooms)| == |rooms|
    ensures forall i | 0 <= i < |rooms| :: RoomOps(owner, rooms)[i] == Share(owner, rooms[i])
  {
    if rooms != [] {
      RoomOpsAre(owner, rooms[1..]);
    }
  }

  /** The operations of one registration are exactly what it asks for. */
  lemma OwnOps(r: Registration, op: Op)
    ensures op in ProviderOps(r.owner, r.providers) + RoomOps(r.owner, r.rooms) <==> Asks(r, op)
  {
    ProviderOpsAre(r.owner, r.providers);
    RoomOpsAre(r.owner, r.rooms);
    var a, b := ProviderOps(r.owner, r.providers), RoomOps(r.owner, r.rooms);
    if Asks(r, op) {
      match op {
        case Push(_, p) =>
          var i :| 0 <= i < |r.providers| && r.providers[i] == p;
          assert a[i] == op;
        case Share(_, room) =>
          var i :| 0 <= i < |r.rooms| && r.rooms[i] == room;
          assert b[i] == op;
      }
    }
  }

  lemma {:induction false} OpsAreAsked(regs: seq<Registration>, op: Op)
    ensures op in OpsOf(regs) <==> exists r | r in regs :: Asks(r, op)
  {
    hide Asks;
    if regs != [] {
      OwnOps(regs[0], op);
      OpsAreAsked(regs[1..], op);
      assert forall r :: r in regs <==> r == regs[0] || r in regs[1..];
    }
  }

  lemma ValidOpsAreGood(parse: UrlParser, regs: seq<Registration>)
    requires LawfulParser(parse) && ValidRegistrations(parse, regs)
    ensures GoodOps(OpsOf(regs)) && forall op | op in OpsOf(regs) :: ValidOwner(op.owner)
  {
    hide ValidText, ValidOwner, ValidRoomName, IsBlank, OpsOf;
    forall op | op in OpsOf(regs) ensures GoodOp(op) && ValidOwner(op.owner) {
      OpsAreAsked(regs, op);
      var r :| r in regs && Asks(r, op);
      if op.Share? {
        RoomNameIsNotBlank(op.room.room);
      } else {
        assert ValidProvider(parse, op.provider);
      }
    }
  }

  lemma OwnKeysDiffer(parse: UrlParser, r: Registration)
    requires ValidRegistration(parse, r)
    ensures DistinctOpKeys(ProviderOps(r.owner, r.providers) + RoomOps(r.owner, r.rooms))
  {
    hide ValidText, ValidOwner, ValidRoomName, ValidProvider, RefCount;
    ProviderOpsAre(r.owner, r.providers);
    RoomOpsAre(r.owner, r.rooms);
  }

  lemma {:induction false} ValidKeysDiffer(parse: UrlParser, regs: seq<Registration>)
    requires ValidRegistrations(parse, regs)
    ensures DistinctOpKeys(OpsOf(regs))
  {
    hide ValidRegistration, Asks, OpKey, DistinctOpKeys, ProviderOps, RoomOps, Json.Less;
    if regs == [] {
      assert DistinctOpKeys([]) by { NoKeys(); }
    } else {
      var r, rest := regs[0], regs[1..];
      assert r in regs && forall x | x in rest :: x in regs;
      ValidKeysDiffer(parse, rest);
      OwnKeysDiffer(parse, r);
      var a, b := ProviderOps(r.owner, r.providers) + RoomOps(r.owner, r.rooms), OpsOf(rest);
      assert OpsOf(regs) == a + b;
      forall i, j | 0 <= i < |a| && 0 <= j < |b| ensures OpKey(a[i]) != OpKey(b[j]) {
        OwnOps(r, a[i]);
        OpsAreAsked(rest, b[j]);
        var x :| x in rest && Asks(x, b[j]);
        var k :| 0 <= k < |rest| && rest[k] == x;
        assert Json.Less(regs[0].owner, regs[k + 1].owner);
        Json.LessIsTotal(r.owner, x.owner);
        AskedOwner(r, a[i]);
        AskedOwner(x, b[j]);
      }
      JoinedKeys(a, b);
    }
  }

  lemma NoKeys()
    ensures DistinctOpKeys([])
  {}

  lemma AskedOwner(r: Registration, op: Op)
    requires Asks(r, op)
    ensures OpKey(op).owner == r.owner
  {}

  lemma JoinedKeys(a: seq<Op>, b: seq<Op>)
    requires DistinctOpKeys(a) && DistinctOpKeys(b)
    requires forall i, j | 0 <= i < |a| && 0 <= j < |b| :: OpKey(a[i]) != OpKey(b[j])
    ensures DistinctOpKeys(a + b)
  {
    hide OpKey;
    forall i, j | 0 <= i < j < |a + b| ensures OpKey((a + b)[i]) != OpKey((a + b)[j]) {
      if i >= |a| {
        assert (a + b)[i] == b[i - |a|] && (a + b)[j] == b[j - |a|];
      } else if j >= |a| {
        assert (a + b)[j] == b[j - |a|];
      }
    }
  }

  // ---- Main results -------------------------------------------------------------------------

  /**
   The merge is a union. For a room that the user has not disabled, its first provider afterwards
   provides if the user's did or any registration offers to, and shares the user's list followed by
   what is registered, in owner order, without repeats. A disabled room stays as it was.
   */
  lemma MergeIsUnion(parse: UrlParser, regs: seq<Registration>, user: seq<Provider>, room: string)
    requires LawfulParser(parse) && ValidRegistrations(parse, regs)
    ensures Disabled(Merged(regs, user), room) == Disabled(user, room)
    ensures Disabled(user, room) ==> FirstFor(Merged(regs, user), room) == FirstFor(user, room)
    ensures !Disabled(user, room) ==>
              IsUnion(FirstFor(user, room), FirstFor(Merged(regs, user), room), OpsOf(regs), room)
  {
    hide OpsOf, ApplyAll, Disabled, FirstFor, IsUnion, ValidRegistrations;
    ValidOpsAreGood(parse, regs);
    ApplyAllByRoom(user, OpsOf(regs), room);
  }

  /** Users keep their providers, and at most one provider per room is added, where there was none. */
  lemma MergeKeepsUsers(parse: UrlParser, regs: seq<Registration>, user: seq<Provider>)
    requires LawfulParser(parse) && ValidRegistrations(parse, regs)
    ensures var r := Merged(regs, user);
            && |user| <= |r| && (forall i | 0 <= i < |user| :: SameSettings(user[i], r[i]))
            && (forall i | 0 <= i < |user| && r[i] != user[i] ::
                  RoomOf(user[i]).Some? && IsFirst(user, i) && !Disabled(user, RoomOf(user[i]).value)
                  && Registered(OpsOf(regs), RoomOf(user[i]).value))
            && AddedRoomsAreAlone(r, |user|)
  {
    hide OpsOf, ApplyAll, Disabled, Registered, IsFirst, RoomOf, ValidRegistrations, SameSettings;
    ValidOpsAreGood(parse, regs);
    OneSyntheticPerRoom(user, OpsOf(regs), |user|);
    MergedIds(user, OpsOf(regs));
    assert |user| <= |Merged(regs, user)| by {
      assert |Ids(Merged(regs, user))| == |user| + |AddedKeys(user, OpsOf(regs))|;
    }
    forall i | 0 <= i < |user|
      ensures SameSettings(user[i], Merged(regs, user)[i])
      ensures Merged(regs, user)[i] != user[i] ==>
                RoomOf(user[i]).Some? && IsFirst(user, i) && !Disabled(user, RoomOf(user[i]).value)
                && Registered(OpsOf(regs), RoomOf(user[i]).value)
    {
      UserProvidersAreKept(user, OpsOf(regs), i);
    }
  }

  /** Whether a registration lists a room, or has a provider of that id. */
  predicate ListsRoom(r: Registration, room: string) { exists x | x in r.rooms :: x.room == room }

  /** The first owner whose registration lists the room. */
  function FirstRegistrant(regs: seq<Registration>, room: string): Option<string> {
    if regs == [] then None
    else if ListsRoom(regs[0], room) then Some(regs[0].owner)
    else FirstRegistrant(regs[1..], room)
  }

  /**
   A registration gets one id twice: it lists a room and a provider named `room:` and that room, the
   user has no provider for the room, and no owner before it lists the room.
   */
  predicate Clashes(user: seq<Provider>, regs: seq<Registration>, r: Registration) {
    exists x | x in r.rooms ::
      HasProvider(r.providers, "room:" + x.room) && FirstFor(user, x.room).None?
        && FirstRegistrant(regs, x.room) == Some(r.owner)
  }

  lemma {:induction false} FirstOwnerIs(regs: seq<Registration>, room: string)
    ensures Registered(OpsOf(regs), room) <==> FirstRegistrant(regs, room).Some?
    ensures Registered(OpsOf(regs), room) ==> FirstRegistrant(regs, room) == Some(FirstOwner(OpsOf(regs), room))
  {
    hide ProviderOps, RoomOps, ListsRoom, Registered, FirstOwner;
    if regs == [] {
      NothingRegistered(room);
    } else {
      var r := regs[0];
      FirstOwnerIs(regs[1..], room);
      OwnProvidersRegisterNothing(r, room);
      OwnRoomsRegister(r, room);
      RegisteredConcat(RoomOps(r.owner, r.rooms), OpsOf(regs[1..]), room);
      RegisteredConcat(ProviderOps(r.owner, r.providers), RoomOps(r.owner, r.rooms) + OpsOf(regs[1..]), room);
    }
  }

  lemma {:induction false} RegisteredConcat(a: seq<Op>, b: seq<Op>, room: string)
    ensures Registered(a + b, room) <==> Registered(a, room) || Registered(b, room)
    ensures Registered(a + b, room) ==>
              FirstOwner(a + b, room) == if Registered(a, room) then FirstOwner(a, room) else FirstOwner(b, room)
    decreases |a|
  {
    hide Registered;
    if a == [] {
      NothingRegistered(room);
      assert a + b == b;
    } else {
      assert (a + b)[1..] == a[1..] + b;
      RegisteredCons(a, room);
      RegisteredCons(a + b, room);
      RegisteredConcat(a[1..], b, room);
    }
  }

  lemma OwnProvidersRegisterNothing(r: Registration, room: string)
    ensures !Registered(ProviderOps(r.owner, r.providers), room)
  {
    ProviderOpsAre(r.owner, r.providers);
  }

  lemma OwnRoomsRegister(r: Registration, room: string)
    ensures Registered(RoomOps(r.owner, r.rooms), room) <==> ListsRoom(r, room)
    ensures ListsRoom(r, room) ==> FirstOwner(RoomOps(r.owner, r.rooms), room) == r.owner
  {
    hide FirstOwner;
    RoomOpsAre(r.owner, r.rooms);
    var ops := RoomOps(r.owner, r.rooms);
    if ListsRoom(r, room) {
      var x :| x in r.rooms && x.room == room;
      var i :| 0 <= i < |r.rooms| && r.rooms[i] == x;
      assert ops[i] in ops;
      OwnerOfFirst(ops, room);
    }
  }

  lemma {:induction false} OwnerOfFirst(ops: seq<Op>, room: string)
    requires Registered(ops, room)
    ensures exists op | op in ops :: op.Share? && op.owner == FirstOwner(ops, room) && op.room.room == room
  {
    if !(ops[0].Share? && ops[0].room.room == room) {
      OwnerOfFirst(ops[1..], room);
    } else {
      assert ops[0] in ops;
    }
  }

  lemma OwnersDiffer(parse: UrlParser, regs: seq<Registration>)
    requires ValidRegistrations(parse, regs)
    ensures forall i, j | 0 <= i < j < |regs| :: regs[i].owner != regs[j].owner
  {
    hide ValidRegistration, Json.Less;
    forall i, j | 0 <= i < j < |regs| ensures regs[i].owner != regs[j].owner {
      Json.LessIsTotal(regs[i].owner, regs[j].owner);
    }
  }

  lemma OwnersTellApart(parse: UrlParser, regs: seq<Registration>, a: Registration, b: Registration)
    requires ValidRegistrations(parse, regs) && a in regs && b in regs && a.owner == b.owner
    ensures a == b
  {
    hide ValidRegistrations;
    OwnersDiffer(parse, regs);
    var i :| 0 <= i < |regs| && regs[i] == a;
    var j :| 0 <= j < |regs| && regs[j] == b;
    assert i == j;
  }

  /** Clashing keys are added exactly when a registration clashes. */
  lemma ClashIsOfInputs(parse: UrlParser, regs: seq<Registration>, user: seq<Provider>)
    requires LawfulParser(parse) && ValidRegistrations(parse, regs)
    ensures NoClash(AddedKeys(user, OpsOf(regs))) <==> forall r | r in regs :: !Clashes(user, regs, r)
  {
    hide OpsOf, AddedKeys, ValidRegistrations, FirstFor, FirstRegistrant, FirstOwner, Registered, NoClash, Clashes;
    var keys := AddedKeys(user, OpsOf(regs));
    ValidOpsAreGood(parse, regs);
    if !NoClash(keys) {
      var a, b := SomeClash(keys);
      KeysOfInputs(user, regs, a.owner, a.id);
      KeysOfInputs(user, regs, b.owner, b.room);
      var p :| p in regs && p.owner == a.owner && HasProvider(p.providers, a.id);
      var q :| q in regs && q.owner == b.owner && ListsRoom(q, b.room);
      OwnersTellApart(parse, regs, p, q);
      ClashFound(user, regs, p, b.room);
    }
    forall r | r in regs && Clashes(user, regs, r) ensures !NoClash(keys) {
      var room := ClashOf(user, regs, r);
      KeysOfInputs(user, regs, r.owner, "room:" + room);
      KeysOfInputs(user, regs, r.owner, room);
      ClashingKeys(keys, ProviderKey(r.owner, "room:" + room), RoomKey(r.owner, room));
    }
  }

  lemma SomeClash(keys: seq<Key>) returns (a: Key, b: Key)
    requires !NoClash(keys)
    ensures a in keys && b in keys && a.ProviderKey? && b.RoomKey? && a.owner == b.owner && a.id == "room:" + b.room
  {
    a, b :| a in keys && b in keys && a.ProviderKey? && b.RoomKey? && a.owner == b.owner && a.id == "room:" + b.room;
  }

  lemma ClashingKeys(keys: seq<Key>, a: Key, b: Key)
    requires a in keys && b in keys && a.ProviderKey? && b.RoomKey? && a.owner == b.owner && a.id == "room:" + b.room
    ensures !NoClash(keys)
  {}

  lemma ClashFound(user: seq<Provider>, regs: seq<Registration>, r: Registration, room: string)
    requires ListsRoom(r, room) && HasProvider(r.providers, "room:" + room)
    requires FirstFor(user, room).None? && FirstRegistrant(regs, room) == Some(r.owner)
    ensures Clashes(user, regs, r)
  {
    hide FirstFor, FirstRegistrant, HasProvider;
    var x :| x in r.rooms && x.room == room;
  }

  lemma ClashOf(user: seq<Provider>, regs: seq<Registration>, r: Registration) returns (room: string)
    requires Clashes(user, regs, r)
    ensures ListsRoom(r, room) && HasProvider(r.providers, "room:" + room)
    ensures FirstFor(user, room).None? && FirstRegistrant(regs, room) == Some(r.owner)
  {
    hide FirstFor, FirstRegistrant, HasProvider;
    var x :| x in r.rooms && HasProvider(r.providers, "room:" + x.room) && FirstFor(user, x.room).None?
             && FirstRegistrant(regs, x.room) == Some(r.owner);
    room := x.room;
  }

  /** What is added, in terms of the registrations. */
  lemma KeysOfInputs(user: seq<Provider>, regs: seq<Registration>, owner: string, name: string)
    requires GoodOps(OpsOf(regs))
    ensures RoomKey(owner, name) in AddedKeys(user, OpsOf(regs)) <==>
              FirstFor(user, name).None? && FirstRegistrant(regs, name) == Some(owner)
    ensures ProviderKey(owner, name) in AddedKeys(user, OpsOf(regs)) <==>
              exists r | r in regs :: r.owner == owner && HasProvider(r.providers, name)
    ensures FirstRegistrant(regs, name) == Some(owner) ==> exists r | r in regs ::
              r.owner == owner && ListsRoom(r, name)
  {
    hide OpsOf, AddedKeys, FirstFor, FirstOwner, Registered, GoodOps;
    AddedExactly(user, OpsOf(regs), owner, name);
    FirstOwnerIs(regs, name);
    PushesAre(regs, owner, name);
    RegistrantLists(regs, name);
  }

  lemma {:induction false} RegistrantLists(regs: seq<Registration>, room: string)
    ensures var o := FirstRegistrant(regs, room); o.Some? ==> exists r | r in regs ::
              r.owner == o.value && ListsRoom(r, room)
  {
    hide ListsRoom;
    if regs != [] {
      if ListsRoom(regs[0], room) {
        assert regs[0] in regs;
      } else {
        RegistrantLists(regs[1..], room);
      }
    }
  }

  lemma PushesAre(regs: seq<Registration>, owner: string, id: string)
    ensures (exists op | op in OpsOf(regs) :: op.Push? && op.owner == owner && op.provider.id == id)
       <==> exists r | r in regs :: r.owner == owner && HasProvider(r.providers, id)
  {
    hide OpsOf;
    forall op | op in OpsOf(regs) && op.Push? && op.owner == owner && op.provider.id == id
      ensures exists r | r in regs :: r.owner == owner && HasProvider(r.providers, id)
    {
      OpsAreAsked(regs, op);
      var r :| r in regs && Asks(r, op);
      assert op.provider in r.providers;
    }
    forall r | r in regs && r.owner == owner && HasProvider(r.providers, id)
      ensures exists op | op in OpsOf(regs) :: op.Push? && op.owner == owner && op.provider.id == id
    {
      var p :| p in r.providers && p.id == id;
      assert Asks(r, Push(owner, p));
      OpsAreAsked(regs, Push(owner, p));
    }
  }

  /** An id that a registration brings in is already that of a provider of the user. */
  predicate TakesUserId(user: seq<Provider>, regs: seq<Registration>, r: Registration) {
    || (exists p | p in r.providers :: ProviderId(r.owner, p.id) in Ids(user))
    || (exists x | x in r.rooms ::
          FirstFor(user, x.room).None? && FirstRegistrant(regs, x.room) == Some(r.owner)
            && RoomId(r.owner, x.room) in Ids(user))
  }

  lemma ProviderTakes(user: seq<Provider>, regs: seq<Registration>, r: Registration, id: string)
    requires HasProvider(r.providers, id) && ProviderId(r.owner, id) in Ids(user)
    ensures TakesUserId(user, regs, r)
  {
    hide FirstFor, FirstRegistrant, RoomId;
    var p :| p in r.providers && p.id == id;
  }

  lemma RoomTakes(user: seq<Provider>, regs: seq<Registration>, r: Registration, room: string)
    requires ListsRoom(r, room) && FirstFor(user, room).None? && FirstRegistrant(regs, room) == Some(r.owner)
    requires RoomId(r.owner, room) in Ids(user)
    ensures TakesUserId(user, regs, r)
  {
    hide FirstFor, FirstRegistrant, ProviderId;
    var x :| x in r.rooms && x.room == room;
  }

  lemma TakenKey(user: seq<Provider>, regs: seq<Registration>, r: Registration) returns (k: Key)
    requires GoodOps(OpsOf(regs)) && r in regs && TakesUserId(user, regs, r)
    ensures k in AddedKeys(user, OpsOf(regs)) && KeyText(k) in Ids(user)
  {
    hide OpsOf, AddedKeys, GoodOps, FirstFor, FirstRegistrant, ProviderId, RoomId, Ids;
    if exists p | p in r.providers :: ProviderId(r.owner, p.id) in Ids(user) {
      var p :| p in r.providers && ProviderId(r.owner, p.id) in Ids(user);
      KeysOfInputs(user, regs, r.owner, p.id);
      k := ProviderKey(r.owner, p.id);
    } else {
      var x :| x in r.rooms && FirstFor(user, x.room).None? && FirstRegistrant(regs, x.room) == Some(r.owner)
               && RoomId(r.owner, x.room) in Ids(user);
      KeysOfInputs(user, regs, r.owner, x.room);
      k := RoomKey(r.owner, x.room);
    }
  }

  /** An added id is one of the user's exactly when some registration brings such an id in. */
  lemma TakenIsOfInputs(user: seq<Provider>, regs: seq<Registration>)
    requires GoodOps(OpsOf(regs))
    ensures (forall k | k in AddedKeys(user, OpsOf(regs)) :: KeyText(k) !in Ids(user)) <==>
              forall r | r in regs :: !TakesUserId(user, regs, r)
  {
    hide OpsOf, AddedKeys, GoodOps, FirstFor, FirstRegistrant, ProviderId, RoomId, Ids, TakesUserId;
    forall k | k in AddedKeys(user, OpsOf(regs)) && KeyText(k) in Ids(user)
      ensures exists r | r in regs :: TakesUserId(user, regs, r)
    {
      match k
      case ProviderKey(owner, id) =>
        KeysOfInputs(user, regs, owner, id);
        var r :| r in regs && r.owner == owner && HasProvider(r.providers, id);
        ProviderTakes(user, regs, r, id);
      case RoomKey(owner, room) =>
        KeysOfInputs(user, regs, owner, room);
        var r :| r in regs && r.owner == owner && ListsRoom(r, room);
        RoomTakes(user, regs, r, room);
    }
    forall r | r in regs && TakesUserId(user, regs, r)
      ensures exists k | k in AddedKeys(user, OpsOf(regs)) :: KeyText(k) in Ids(user)
    {
      var k := TakenKey(user, regs, r);
    }
  }

  lemma AllDifferentAppend<T>(a: seq<T>, b: seq<T>)
    ensures AllDifferent(a + b) <==> AllDifferent(a) && AllDifferent(b) && forall x | x in b :: x !in a
  {
    var both := a + b;
    if AllDifferent(both) {
      forall i, j | 0 <= i < j < |a| ensures a[i] != a[j] { assert both[i] == a[i] && both[j] == a[j]; }
      forall i, j | 0 <= i < j < |b| ensures b[i] != b[j] {
        assert both[|a| + i] == b[i] && both[|a| + j] == b[j];
      }
      forall x | x in b ensures x !in a {
        var j :| 0 <= j < |b| && b[j] == x;
        assert both[|a| + j] == x;
        assert forall i | 0 <= i < |a| :: both[i] == a[i];
      }
    }
    assert forall j | |a| <= j < |both| :: both[j] in b;
  }

  lemma TextsOfKeys(keys: seq<Key>, taken: seq<string>)
    ensures (forall x | x in KeyTexts(keys) :: x !in taken) <==> forall k | k in keys :: KeyText(k) !in taken
  {
    hide KeyText;
    forall k | k in keys ensures KeyText(k) in KeyTexts(keys) {
      var i :| 0 <= i < |keys| && keys[i] == k;
      assert KeyTexts(keys)[i] == KeyText(k);
    }
  }

  /**
   The ids after the merge. The added ones are all different exactly when no registration clashes,
   and all of them are when, besides, the user's are and no registration brings one of these in.
   */
  lemma MergeAddsIds(parse: UrlParser, regs: seq<Registration>, user: seq<Provider>)
    requires LawfulParser(parse) && ValidRegistrations(parse, regs)
    ensures Ids(Merged(regs, user)) == Ids(user) + KeyTexts(AddedKeys(user, OpsOf(regs)))
    ensures AllDifferent(Ids(Merged(regs, user))[|user|..]) <==> forall r | r in regs :: !Clashes(user, regs, r)
    ensures AllDifferent(Ids(Merged(regs, user))) <==>
              AllDifferent(Ids(user))
                && forall r | r in regs :: !Clashes(user, regs, r) && !TakesUserId(user, regs, r)
  {
    hide OpsOf, ApplyAll, AddedKeys, ValidRegistrations, DistinctOpKeys, Clashes, NoClash, TakesUserId, AllDifferent,
      KeyText, GoodOps;
    var keys := AddedKeys(user, OpsOf(regs));
    ValidOpsAreGood(parse, regs);
    ValidKeysDiffer(parse, regs);
    MergedIds(user, OpsOf(regs));
    AddedIdsAreDistinct(user, OpsOf(regs));
    ClashIsOfInputs(parse, regs, user);
    TakenIsOfInputs(user, regs);
    TextsOfKeys(keys, Ids(user));
    AllDifferentAppend(Ids(user), KeyTexts(keys));
    assert Ids(Merged(regs, user))[|user|..] == KeyTexts(keys);
  }

  /** One owner with a provider `room:x` and a room `x`: a registration that is accepted and gets one id twice. */
  lemma ClashExample(parse: UrlParser, url: string)
    requires LawfulParser(parse) && parse(url) == Some(Url("https", true, false))
    ensures var p := ExternalProvider("room:x", "X", url, "", true);
            var reg := Registration("a", Some("A"), [p], [ExternalRoom("x", true, true, [])]);
            var r := Merged([reg], []);
            ValidRegistrations(parse, [reg]) && |r| == 2 && r[0].id == r[1].id == "ext:a:room:x"
  {
    hide RoomOf, Disabled, ApplyOp, ValidRegistration;
    var p := ExternalProvider("room:x", "X", url, "", true);
    var room := ExternalRoom("x", true, true, []);
    var reg := Registration("a", Some("A"), [p], [room]);
    var ops := [Push("a", p), Share("a", room)];
    var one := Imported("a", p);
    ClashIsValid(parse, url);
    ClashOps(reg);
    assert ApplyOp([], ops[0]) == [one] by { PushOp([], "a", p); }
    assert ApplyOp([one], ops[1]) == [one, Enriched(Synthetic("a", "x"), "a", room)] by { ShareOp(one, "a", room); }
    assert ops[1..] == [ops[1]] && [ops[1]][1..] == [];
    assert ApplyAll([one], [ops[1]]) == ApplyAll(ApplyOp([one], ops[1]), []);
    assert ProviderId("a", "room:x") == "ext:a:room:x" && RoomId("a", "x") == "ext:a:room:x";
  }

  lemma ClashIsValid(parse: UrlParser, url: string)
    requires parse(url) == Some(Url("https", true, false))
    ensures var p := ExternalProvider("room:x", "X", url, "", true);
            ValidRegistration(parse, Registration("a", Some("A"), [p], [ExternalRoom("x", true, true, [])]))
  {
    hide IsBlank;
    LettersAreText("A");
    LettersAreText("X");
    LettersAreText("room:x");
    assert Size("a") == 1 && Size("x") == 1;
    assert RefCount([ExternalRoom("x", true, true, [])][1..]) == 0;
  }

  lemma LettersAreText(s: string)
    requires s != "" && forall i | 0 <= i < |s| :: '!' <= s[i] <= '~'
    ensures ValidText(s)
  {
    hide IsWhitespace;
    WhitespaceFacts();
    TrimmedAlready(s);
  }

  lemma ClashOps(reg: Registration)
    requires |reg.providers| == 1 && |reg.rooms| == 1
    ensures OpsOf([reg]) == [Push(reg.owner, reg.providers[0]), Share(reg.owner, reg.rooms[0])]
  {
    assert [reg][1..] == [];
    assert reg.providers[1..] == [] && reg.rooms[1..] == [];
    ProviderOpsAre(reg.owner, reg.providers);
    RoomOpsAre(reg.owner, reg.rooms);
    assert OpsOf([reg][1..]) == [];
    assert ProviderOps(reg.owner, reg.providers) == [Push(reg.owner, reg.providers[0])];
    assert RoomOps(reg.owner, reg.rooms) == [Share(reg.owner, reg.rooms[0])];
  }

  lemma PushOp(ps: seq<Provider>, owner: string, p: ExternalProvider)
    ensures ApplyOp(ps, Push(owner, p)) == ps + [Imported(owner, p)]
  {}

  lemma ShareOp(one: Provider, owner: string, room: ExternalRoom)
    requires !(ROOM_SCHEME <= one.baseUrl)
    ensures ApplyOp([one], Share(owner, room)) == [one, Enriched(Synthetic(owner, room.room), owner, room)]
  {
    hide RoomOf, AddRefs, Enriched, Synthetic;
    NoRoom(one);
    assert [one][1..] == [];
    assert EnrichFirst([], owner, room) == [Enriched(Synthetic(owner, room.room), owner, room)];
    assert EnrichFirst([one], owner, room) == [one] + EnrichFirst([], owner, room);
  }

  // ---- The merge in the registrations' own words --------------------------------------------

  /** The provider that a registration's provider becomes, field by field. */
  predicate IsImported(q: Provider, owner: string, p: ExternalProvider) {
    && q.id == "ext:" + owner + ":" + p.id && q.name == p.name && q.baseUrl == p.baseUrl && q.apiKey == p.apiKey
    && q.enabled == p.enabled && q.models == [] && q.modelsFetchedAt.None? && !q.provide && q.shared == []
  }

  lemma {:induction false} PushedStays(ps: seq<Provider>, ops: seq<Op>, op: Op)
    requires GoodOps(ops) && op in ops && op.Push?
    ensures exists i | |ps| <= i < |ApplyAll(ps, ops)| :: ApplyAll(ps, ops)[i] == Imported(op.owner, op.provider)
    decreases |ops|
  {
    hide RoomOf, ApplyOp, Imported, GoodOp;
    assert ops[0] in ops && forall o | o in ops[1..] :: o in ops;
    var next := ApplyOp(ps, ops[0]);
    StepIsLonger(ps, ops[0]);
    assert ApplyAll(ps, ops) == ApplyAll(next, ops[1..]);
    if op in ops[1..] {
      PushedStays(next, ops[1..], op);
    } else {
      assert op == ops[0];
      PushIsLast(ps, op);
      UserProvidersAreKept(next, ops[1..], |ps|);
      assert ApplyAll(ps, ops)[|ps|] == Imported(op.owner, op.provider);
    }
  }

  lemma StepIsLonger(ps: seq<Provider>, op: Op)
    ensures |ApplyOp(ps, op)| >= |ps|
  {
    hide RoomOf, AddRefs, EnrichFirst, Disabled;
    if op.Share? {
      EnrichAddsOnlyNew(ps, op.owner, op.room);
    }
  }

  lemma PushIsLast(ps: seq<Provider>, op: Op)
    requires GoodOp(op) && op.Push?
    ensures ApplyOp(ps, op) == ps + [Imported(op.owner, op.provider)]
    ensures RoomOf(Imported(op.owner, op.provider)).None?
  {
    NoRoom(Imported(op.owner, op.provider));
  }

  /** Every registered provider is there after the merge, behind the user's, as it was registered. */
  lemma ProvidersAreImported(parse: UrlParser, regs: seq<Registration>, user: seq<Provider>, r: Registration,
      p: ExternalProvider)
    requires LawfulParser(parse) && ValidRegistrations(parse, regs) && r in regs && p in r.providers
    ensures var after := Merged(regs, user); exists i | |user| <= i < |after| :: IsImported(after[i], r.owner, p)
  {
    hide OpsOf, ApplyAll, ValidRegistrations, IsImported, Imported;
    ValidOpsAreGood(parse, regs);
    assert Asks(r, Push(r.owner, p));
    OpsAreAsked(regs, Push(r.owner, p));
    PushedStays(user, OpsOf(regs), Push(r.owner, p));
    ImportedFields(r.owner, p);
    var after := Merged(regs, user);
    var i :| |user| <= i < |after| && after[i] == Imported(r.owner, p);
    assert IsImported(after[i], r.owner, p);
  }

  lemma ImportedFields(owner: string, p: ExternalProvider)
    ensures IsImported(Imported(owner, p), owner, p)
  {}

  /** An operation shares a reference: the provider is named with its owner. */
  predicate SharesRef(op: Op, room: string, x: ModelRef) {
    && op.Share? && op.room.room == room
    && exists ref | ref in op.room.shared ::
         x.model == ref.model && x.providerId == "ext:" + op.owner + ":" + ref.providerId
  }

  lemma MappedInWords(owner: string, refs: seq<ModelRef>, x: ModelRef)
    ensures x in Mapped(owner, refs) <==>
              exists ref | ref in refs :: x.model == ref.model && x.providerId == "ext:" + owner + ":" + ref.providerId
  {
    forall ref | ref in refs && x.model == ref.model && x.providerId == "ext:" + owner + ":" + ref.providerId
      ensures x in Mapped(owner, refs)
    {
      var i :| 0 <= i < |refs| && refs[i] == ref;
      assert Mapped(owner, refs)[i] == x;
    }
  }

  lemma {:induction false} RefsInWords(ops: seq<Op>, room: string, x: ModelRef)
    ensures x in RefsFor(ops, room) <==> exists op | op in ops :: SharesRef(op, room, x)
  {
    hide Mapped, SharesRef;
    if ops != [] {
      RefsInWords(ops[1..], room, x);
      assert forall op :: op in ops <==> op == ops[0] || op in ops[1..];
      OpShares(ops[0], room, x);
    }
  }

  lemma OpShares(op: Op, room: string, x: ModelRef)
    ensures SharesRef(op, room, x) <==>
              op.Share? && op.room.room == room && x in Mapped(op.owner, op.room.shared)
  {
    hide Mapped;
    if op.Share? {
      MappedInWords(op.owner, op.room.shared, x);
    }
  }

  /** A registration shares a reference in a room, or offers to provide there. */
  predicate Shares(r: Registration, room: string, x: ModelRef) {
    exists e, ref | e in r.rooms && ref in e.shared ::
      e.room == room && x.model == ref.model && x.providerId == "ext:" + r.owner + ":" + ref.providerId
  }

  predicate Provides(r: Registration, room: string) { exists e | e in r.rooms :: e.room == room && e.provide }

  lemma AsksShares(regs: seq<Registration>, room: string, x: ModelRef)
    ensures (exists op | op in OpsOf(regs) :: SharesRef(op, room, x)) <==> exists r | r in regs :: Shares(r, room, x)
  {
    hide OpsOf;
    if op :| op in OpsOf(regs) && SharesRef(op, room, x) {
      OpsAreAsked(regs, op);
      var r :| r in regs && Asks(r, op);
      assert Shares(r, room, x);
    }
    if r :| r in regs && Shares(r, room, x) {
      var e, ref :| e in r.rooms && ref in e.shared && e.room == room && x.model == ref.model
        && x.providerId == "ext:" + r.owner + ":" + ref.providerId;
      assert Asks(r, Share(r.owner, e));
      OpsAreAsked(regs, Share(r.owner, e));
      assert SharesRef(Share(r.owner, e), room, x);
    }
  }

  lemma AsksProvides(regs: seq<Registration>, room: string)
    ensures AnyProvides(OpsOf(regs), room) <==> exists r | r in regs :: Provides(r, room)
    ensures Registered(OpsOf(regs), room) <==> exists r | r in regs :: ListsRoom(r, room)
  {
    hide OpsOf;
    if op :| op in OpsOf(regs) && op.Share? && op.room.room == room {
      OpsAreAsked(regs, op);
      var r :| r in regs && Asks(r, op);
      assert ListsRoom(r, room) && (op.room.provide ==> Provides(r, room));
    }
    if op :| op in OpsOf(regs) && op.Share? && op.room.room == room && op.room.provide {
      OpsAreAsked(regs, op);
      var r :| r in regs && Asks(r, op);
      assert Provides(r, room);
    }
    forall r, e | r in regs && e in r.rooms ensures Share(r.owner, e) in OpsOf(regs) {
      assert Asks(r, Share(r.owner, e));
      OpsAreAsked(regs, Share(r.owner, e));
    }
  }

  /**
   A room that the user has not disabled: its first provider afterwards shares exactly what the user's
   shared and what registrations share there, and provides if the user's did or one of them offers to.
   */
  lemma RoomsShareTheirOffers(parse: UrlParser, regs: seq<Registration>, user: seq<Provider>, room: string, x: ModelRef)
    requires LawfulParser(parse) && ValidRegistrations(parse, regs) && !Disabled(user, room)
    ensures var before, after := FirstFor(user, room), FirstFor(Merged(regs, user), room);
            && (after.Some? <==> before.Some? || exists r | r in regs :: ListsRoom(r, room))
            && (after.Some? ==>
                  && (x in after.value.shared <==>
                        (before.Some? && x in before.value.shared) || exists r | r in regs :: Shares(r, room, x))
                  && (after.value.provide <==>
                        (before.Some? && before.value.provide) || exists r | r in regs :: Provides(r, room)))
  {
    hide OpsOf, ApplyAll, Disabled, FirstFor, ValidRegistrations, Merged, RefsFor, AddRefs, ListsRoom, Shares, Provides,
      AnyProvides, Registered, FirstOwner, SharesRef;
    MergeIsUnion(parse, regs, user, room);
    AsksProvides(regs, room);
    AsksShares(regs, room, x);
    RefsInWords(OpsOf(regs), room, x);
    if !Registered(OpsOf(regs), room) {
      NoRefs(OpsOf(regs), room);
      assert x !in RefsFor(OpsOf(regs), room);
    } else if FirstFor(user, room).Some? {
      AddRefsIsUnion(FirstFor(user, room).value.shared, RefsFor(OpsOf(regs), room));
    } else {
      AddRefsIsUnion([], RefsFor(OpsOf(regs), room));
    }
  }

  /** A provider that is added for a room, field by field; the first owner to list the room gives it its id. */
  lemma AddedRoomInWords(parse: UrlParser, regs: seq<Registration>, user: seq<Provider>, room: string)
    requires LawfulParser(parse) && ValidRegistrations(parse, regs)
    requires FirstFor(user, room).None? && FirstRegistrant(regs, room).Some?
    ensures var after := FirstFor(Merged(regs, user), room);
            && after.Some? && after.value.id == "ext:" + FirstRegistrant(regs, room).value + ":room:" + room
            && after.value.name == room && after.value.baseUrl == "mist-network://" + room && after.value.apiKey == ""
            && after.value.enabled && after.value.models == [] && after.value.modelsFetchedAt.None?
  {
    hide OpsOf, ApplyAll, FirstFor, ValidRegistrations, Merged, RefsFor, AddRefs, AnyProvides, Registered,
      FirstOwner, FirstRegistrant, Disabled;
    MergeIsUnion(parse, regs, user, room);
    FirstOwnerIs(regs, room);
    if Disabled(user, room) {
      DisabledIsPresent(user, room);
    }
  }

  // ---- What a registration may say ----------------------------------------------------------

  /** A digit or a lower-case letter. */
  predicate OwnerCharacter(c: char) {
    0x30 as char <= c <= 0x39 as char || 0x61 as char <= c <= 0x7A as char
  }

  lemma {:induction false} PlainSize(s: string)
    requires forall i | 0 <= i < |s| :: s[i] < 0x80 as char
    ensures Size(s) == |s|
  {
    if s != "" {
      PlainSize(s[1..]);
    }
  }

  /** Owners are 1 to 32 digits, lower-case letters and hyphens, not beginning with a hyphen. */
  lemma OwnersAre(owner: string)
    ensures ValidOwner(owner) <==>
              && 1 <= |owner| <= 32 && OwnerCharacter(owner[0])
              && forall i | 0 <= i < |owner| :: OwnerCharacter(owner[i]) || owner[i] == 0x2D as char
  {
    hide Size;
    if forall i | 0 <= i < |owner| :: OwnerCharacter(owner[i]) || owner[i] == 0x2D as char {
      PlainSize(owner);
    }
  }

  /** Rooms are 1 to 64 digits, letters of either case, underscores and hyphens. */
  lemma RoomNamesAre(room: string)
    ensures ValidRoomName(room) <==>
              && 1 <= |room| <= 64
              && forall i | 0 <= i < |room| ::
                   || OwnerCharacter(room[i]) || 0x41 as char <= room[i] <= 0x5A as char
                   || room[i] == 0x5F as char || room[i] == 0x2D as char
  {
    hide Size;
    if forall i | 0 <= i < |room| :: room[i] < 0x80 as char {
      PlainSize(room);
    }
  }

  /** Names and ids are of anything but control characters, and not of whitespace alone. */
  lemma TextsAre(s: string)
    ensures ValidText(s) <==>
              Trim(s) != ""
              && forall i | 0 <= i < |s| ::
                   s[i] >= 0x20 as char && !(0x7F as char <= s[i] <= 0x9F as char)
  {
    hide Trim;
  }

  /** What is refused: too many providers, rooms or references, repeats, strangers' providers. */
  lemma RefusedRegistrations(parse: UrlParser, r: Registration)
    requires ValidRegistration(parse, r)
    ensures |r.providers| <= 64 && |r.rooms| <= 64 && RefCount(r.rooms) <= 512
    ensures forall i, j | 0 <= i < j < |r.providers| :: r.providers[i].id != r.providers[j].id
    ensures forall i, j | 0 <= i < j < |r.rooms| :: r.rooms[i].room != r.rooms[j].room
    ensures forall e, ref | e in r.rooms && ref in e.shared ::
              exists p | p in r.providers :: p.id == ref.providerId
    ensures forall p | p in r.providers ::
              exists u | Some(u) == parse(p.baseUrl) ::
                (u.scheme == "http" || u.scheme == "https") && u.hasHost && !u.hasCredentials
  {}

  /** A registration of providers alone is accepted up to 64 of them, with web URLs and names of their own. */
  lemma ProvidersAreAccepted(parse: UrlParser, r: Registration)
    requires ValidOwner(r.owner) && r.name.None? && |r.providers| <= 64 && r.rooms == []
    requires forall p | p in r.providers ::
               && ValidText(p.id) && ValidText(p.name)
               && parse(p.baseUrl) in [Some(Url("http", true, false)), Some(Url("https", true, false))]
    requires forall i, j | 0 <= i < j < |r.providers| :: r.providers[i].id != r.providers[j].id
    ensures ValidRegistration(parse, r)
  {
    hide ValidText;
    OwnerIsText(r.owner);
  }

  lemma OwnerIsText(owner: string)
    requires ValidOwner(owner)
    ensures ValidText(owner)
  {
    hide Size, IsWhitespace;
    WhitespaceFacts();
    assert IsLowerOrDigit(owner[0]);
    LastOwnerCharacter(owner[|owner| - 1]);
    TrimmedAlready(owner);
  }

  lemma LastOwnerCharacter(c: char)
    requires IsLowerOrDigit(c) || c == '-'
    ensures !IsWhitespace(c)
  {}

  /** Rooms are accepted up to 64 of them, with up to 512 references to the registration's own providers. */
  lemma RoomsAreAccepted(parse: UrlParser, r: Registration, rooms: seq<ExternalRoom>)
    requires ValidRegistration(parse, r) && r.rooms == [] && |rooms| <= 64 && RefCount(rooms) <= 512
    requires forall e | e in rooms :: ValidRoomName(e.room)
    requires forall i, j | 0 <= i < j < |rooms| :: rooms[i].room != rooms[j].room
    requires forall e, ref | e in rooms && ref in e.shared ::
               ValidText(ref.model) && exists p | p in r.providers :: p.id == ref.providerId
    ensures ValidRegistration(parse, r.(rooms := rooms))
  {
    hide ValidText, ValidOwner, ValidRoomName, ValidProvider, RefCount;
  }

  /** References are counted over all rooms. */
  lemma {:induction false} ReferencesAreCounted(a: seq<ExternalRoom>, room: ExternalRoom)
    ensures RefCount(a + [room]) == RefCount(a) + |room.shared|
  {
    if a == [] {
      assert (a + [room])[1..] == [];
    } else {
      assert (a + [room])[1..] == a[1..] + [room];
      ReferencesAreCounted(a[1..], room);
    }
  }

  /** A registration without a name is named after its owner, and one with a name keeps it. */
  lemma OwnersAreNames(r: Registration)
    ensures Labelled(r).name == Some(if r.name.Some? then r.name.value else r.owner)
    ensures Labelled(r).owner == r.owner && Labelled(r).providers == r.providers && Labelled(r).rooms == r.rooms
  {}

  // ---- The store ----------------------------------------------------------------------------

  /** The registration of an owner. */
  function Lookup(regs: seq<Registration>, owner: string): Option<Registration> {
    if regs == [] then None
    else if regs[0].owner == owner then Some(regs[0])
    else Lookup(regs[1..], owner)
  }

  /** Inserted in owner order, in place of an older registration of that owner. */
  function Put(regs: seq<Registration>, r: Registration): seq<Registration> {
    if regs == [] then [r]
    else if regs[0].owner == r.owner then [r] + regs[1..]
    else if Json.Less(r.owner, regs[0].owner) then [r] + regs
    else [regs[0]] + Put(regs[1..], r)
  }

  function Without(regs: seq<Registration>, owner: string): seq<Registration> {
    if regs == [] then []
    else if regs[0].owner == owner then regs[1..]
    else [regs[0]] + Without(regs[1..], owner)
  }

  ghost predicate InOrder(regs: seq<Registration>) {
    forall i, j | 0 <= i < j < |regs| :: Json.Less(regs[i].owner, regs[j].owner)
  }

  lemma InOrderCons(r: Registration, rest: seq<Registration>)
    requires InOrder(rest) && (rest != [] ==> Json.Less(r.owner, rest[0].owner))
    ensures InOrder([r] + rest)
  {
    var all := [r] + rest;
    forall i, j | 0 <= i < j < |all| ensures Json.Less(all[i].owner, all[j].owner) {
      assert all[j] == rest[j - 1];
      if i == 0 && j > 1 {
        assert Json.Less(rest[0].owner, rest[j - 1].owner);
        Json.LessIsTransitive(r.owner, rest[0].owner, rest[j - 1].owner);
      } else if i > 0 {
        assert all[i] == rest[i - 1];
      }
    }
  }

  lemma {:induction false} NotBefore(regs: seq<Registration>, owner: string)
    requires InOrder(regs) && (regs != [] ==> Json.Less(owner, regs[0].owner))
    ensures Lookup(regs, owner) == None && Without(regs, owner) == regs
    ensures forall r | r in regs :: r.owner != owner
  {
    hide Json.Less;
    if regs != [] {
      Json.LessIsTotal(owner, regs[0].owner);
      if |regs| > 1 {
        assert Json.Less(regs[0].owner, regs[1].owner);
        Json.LessIsTransitive(owner, regs[0].owner, regs[1].owner);
      }
      NotBefore(regs[1..], owner);
      assert [regs[0]] + regs[1..] == regs;
    }
  }

  /** Storing keeps the order, answers for its owner, leaves others alone, and can be undone. */
  lemma {:induction false} PutIsUpdate(regs: seq<Registration>, r: Registration, other: string)
    requires InOrder(regs)
    ensures InOrder(Put(regs, r))
    ensures Lookup(Put(regs, r), other) == if other == r.owner then Some(r) else Lookup(regs, other)
    ensures Lookup(regs, r.owner) == None ==> Without(Put(regs, r), r.owner) == regs
    ensures forall x | x in Put(regs, r) :: x == r || x in regs
  {
    hide Json.Less;
    if regs == [] {
      assert [r][1..] == [];
    } else if regs[0].owner == r.owner {
      if |regs| > 1 {
        assert Json.Less(regs[0].owner, regs[1].owner);
      }
      InOrderCons(r, regs[1..]);
      assert ([r] + regs[1..])[1..] == regs[1..];
    } else if Json.Less(r.owner, regs[0].owner) {
      InOrderCons(r, regs);
      NotBefore(regs, r.owner);
      assert ([r] + regs)[1..] == regs;
    } else {
      Json.LessIsTotal(r.owner, regs[0].owner);
      PutIsUpdate(regs[1..], r, other);
      var rest := Put(regs[1..], r);
      if |regs| > 1 {
        assert Json.Less(regs[0].owner, regs[1].owner);
      }
      PutHead(regs[1..], r);
      InOrderCons(regs[0], rest);
      assert ([regs[0]] + rest)[1..] == rest;
      assert [regs[0]] + regs[1..] == regs;
    }
  }

  lemma PutHead(regs: seq<Registration>, r: Registration)
    ensures var p := Put(regs, r); p != [] && (p[0] == r || (regs != [] && p[0] == regs[0]))
  {
    hide Json.Less;
  }

  lemma {:induction false} WithoutIsRemoval(regs: seq<Registration>, owner: string, other: string)
    requires InOrder(regs)
    ensures InOrder(Without(regs, owner))
    ensures Lookup(Without(regs, owner), other) == if other == owner then None else Lookup(regs, other)
    ensures forall x | x in Without(regs, owner) :: x in regs
  {
    hide Json.Less;
    if regs != [] {
      if |regs| > 1 {
        assert Json.Less(regs[0].owner, regs[1].owner);
      }
      if regs[0].owner == owner {
        NotBefore(regs[1..], owner);
      } else {
        WithoutIsRemoval(regs[1..], owner, other);
        var rest := Without(regs[1..], owner);
        if rest != [] {
          var k :| 0 <= k < |regs[1..]| && regs[1..][k] == rest[0];
          assert Json.Less(regs[0].owner, regs[k + 1].owner);
        }
        InOrderCons(regs[0], rest);
        assert ([regs[0]] + rest)[1..] == rest;
      }
    }
  }

  class Store {
    const parse: UrlParser
    var registrations: seq<Registration>

    ghost predicate Valid()
      reads this
    {
      ValidRegistrations(parse, registrations)
    }

    constructor (parse: UrlParser)
      ensures Valid() && registrations == [] && this.parse == parse
    {
      this.parse := parse;
      registrations := [];
    }

    /** Stores a registration; `saved` is whether writing the file succeeds. */
    method Apply(registration: Registration, saved: bool) returns (r: Result<bool>)
      requires Valid()
      modifies this
      ensures Valid()
      ensures r.Ok? <==>
                && ValidRegistration(parse, registration)
                && (Lookup(old(registrations), registration.owner) == Some(Labelled(registration)) || saved)
      ensures registrations == if r.Ok? then Put(old(registrations), Labelled(registration)) else old(registrations)
      ensures r == Ok(false) ==> registrations == old(registrations)
      ensures r.Ok? ==>
                (forall owner :: Lookup(registrations, owner) ==
                   if owner == registration.owner then Some(Labelled(registration))
                   else Lookup(old(registrations), owner))
    {
      hide ValidRegistration, Json.Less, Lookup, Put;
      if !ValidRegistration(parse, registration) {
        return Err("invalid registration");
      }
      var stored := Labelled(registration);
      LabelledIsValid(parse, registration);
      forall owner
        ensures Lookup(Put(registrations, stored), owner) == if owner == stored.owner then Some(stored)
                  else Lookup(registrations, owner)
      {
        PutIsUpdate(registrations, stored, owner);
      }
      PutIsUpdate(registrations, stored, "");
      if Lookup(registrations, registration.owner) == Some(stored) {
        PutSame(registrations, stored);
        return Ok(false);
      }
      if !saved {
        return Err("registrations could not be saved");
      }
      registrations := Put(registrations, stored);
      r := Ok(true);
    }

    method Remove(owner: string, saved: bool) returns (r: Result<bool>)
      requires Valid()
      modifies this
      ensures Valid()
      ensures r.Ok? <==> ValidOwner(owner) && (Lookup(old(registrations), owner) == None || saved)
      ensures r == Ok(true) ==> registrations == Without(old(registrations), owner)
      ensures r != Ok(true) ==> registrations == old(registrations)
      ensures r.Ok? ==> forall o ::
                Lookup(registrations, o) == if o == owner then None else Lookup(old(registrations), o)
    {
      hide ValidRegistration, Json.Less, Lookup, Without, ValidOwner;
      if !ValidOwner(owner) {
        return Err("invalid owner");
      }
      if Lookup(registrations, owner) == None {
        return Ok(false);
      }
      if !saved {
        return Err("registrations could not be saved");
      }
      forall o
        ensures Lookup(Without(registrations, owner), o) == if o == owner then None else Lookup(registrations, o)
      {
        WithoutIsRemoval(registrations, owner, o);
      }
      WithoutIsRemoval(registrations, owner, "");
      registrations := Without(registrations, owner);
      r := Ok(true);
    }

    /** The user's providers with all registrations merged in. */
    method Merge(user: seq<Provider>) returns (providers: seq<Provider>)
      requires Valid()
      ensures providers == Merged(registrations, user)
    {
      hide ApplyOp, ValidRegistrations, OpsOf, ProviderOps, RoomOps;
      providers := user;
      assert registrations[0..] == registrations;
      for i := 0 to |registrations|
        invariant ApplyAll(providers, OpsOf(registrations[i..])) == Merged(registrations, user)
      {
        var reg := registrations[i];
        ghost var rest := OpsOf(registrations[i + 1..]);
        assert registrations[i..][0] == reg && registrations[i..][1..] == registrations[i + 1..];
        OpsUnfold(registrations[i..]);
        assert reg.providers[0..] == reg.providers && reg.rooms[0..] == reg.rooms;
        for j := 0 to |reg.providers|
          invariant Merged(registrations, user) == ApplyAll(providers,
                      ProviderOps(reg.owner, reg.providers[j..]) + (RoomOps(reg.owner, reg.rooms) + rest))
        {
          var p := reg.providers[j];
          NextProvider(providers, reg.owner, reg.providers, j, RoomOps(reg.owner, reg.rooms) + rest);
          providers := providers
            + [Provider(ProviderId(reg.owner, p.id), p.name, p.baseUrl, p.apiKey, p.enabled, [], None, false, [])];
        }
        NoMoreProviders(reg.owner, RoomOps(reg.owner, reg.rooms) + rest);
        assert reg.providers[|reg.providers|..] == [];
        for j := 0 to |reg.rooms|
          invariant ApplyAll(providers, RoomOps(reg.owner, reg.rooms[j..]) + rest) == Merged(registrations, user)
        {
          var room := reg.rooms[j];
          NextRoom(providers, reg.owner, reg.rooms, j, rest);
          if !Disabled(providers, room.room) {
            providers := OfferRoom(providers, reg.owner, room);
          }
        }
        NoMoreRooms(reg.owner, rest);
        assert reg.rooms[|reg.rooms|..] == [];
      }
      assert registrations[|registrations|..] == [];
      NothingLeft(providers);
    }
  }

  lemma LabelledIsValid(parse: UrlParser, r: Registration)
    requires ValidRegistration(parse, r)
    ensures ValidRegistration(parse, Labelled(r))
  {}

  lemma {:induction false} PutSame(regs: seq<Registration>, r: Registration)
    requires InOrder(regs) && Lookup(regs, r.owner) == Some(r)
    ensures Put(regs, r) == regs
  {
    hide Json.Less;
    if regs[0].owner == r.owner {
      assert [r] + regs[1..] == regs;
    } else {
      if Json.Less(r.owner, regs[0].owner) {
        NotBefore(regs, r.owner);
      } else {
        PutSame(regs[1..], r);
        assert [regs[0]] + regs[1..] == regs;
      }
    }
  }

  lemma OpsUnfold(regs: seq<Registration>)
    requires regs != []
    ensures OpsOf(regs) == ProviderOps(regs[0].owner, regs[0].providers)
              + (RoomOps(regs[0].owner, regs[0].rooms) + OpsOf(regs[1..]))
  {}

  lemma NextProvider(ps: seq<Provider>, owner: string, providers: seq<ExternalProvider>, j: nat, rest: seq<Op>)
    requires j < |providers|
    ensures ApplyAll(ps, ProviderOps(owner, providers[j..]) + rest)
         == ApplyAll(ps + [Imported(owner, providers[j])], ProviderOps(owner, providers[j + 1..]) + rest)
  {
    assert providers[j..][1..] == providers[j + 1..];
    var ops := ProviderOps(owner, providers[j..]) + rest;
    assert ops[0] == Push(owner, providers[j]) && ops[1..] == ProviderOps(owner, providers[j + 1..]) + rest;
  }

  lemma NextRoom(ps: seq<Provider>, owner: string, rooms: seq<ExternalRoom>, j: nat, rest: seq<Op>)
    requires j < |rooms|
    ensures ApplyAll(ps, RoomOps(owner, rooms[j..]) + rest)
         == ApplyAll(if Disabled(ps, rooms[j].room) then ps else EnrichFirst(ps, owner, rooms[j]),
                     RoomOps(owner, rooms[j + 1..]) + rest)
  {
    hide EnrichFirst, Disabled;
    assert rooms[j..][1..] == rooms[j + 1..];
    var ops := RoomOps(owner, rooms[j..]) + rest;
    assert ops[0] == Share(owner, rooms[j]) && ops[1..] == RoomOps(owner, rooms[j + 1..]) + rest;
  }

  lemma NoMoreProviders(owner: string, rest: seq<Op>)
    ensures ProviderOps(owner, []) + rest == rest
  {}

  lemma NoMoreRooms(owner: string, rest: seq<Op>)
    ensures RoomOps(owner, []) + rest == rest
  {}

  lemma NothingLeft(ps: seq<Provider>)
    ensures ApplyAll(ps, OpsOf([])) == ps
  {}

  /** Finds or adds the provider for the room, and adds the offer to it. */
  method OfferRoom(ps: seq<Provider>, owner: string, room: ExternalRoom) returns (providers: seq<Provider>)
    ensures providers == EnrichFirst(ps, owner, room)
  {
    hide RoomOf, AddRefs;
    providers := ps;
    var index := 0;
    while index < |providers| && RoomOf(providers[index]) != Some(room.room)
      invariant index <= |ps| && providers == ps
      invariant forall k | 0 <= k < index :: RoomOf(ps[k]) != Some(room.room)
    {
      index := index + 1;
    }
    if index == |providers| {
      providers := providers + [Synthetic(owner, room.room)];
    }
    var target := providers[index];
    var shared := target.shared;
    var mapped := Mapped(owner, room.shared);
    assert mapped[0..] == mapped;
    for k := 0 to |mapped|
      invariant AddRefs(shared, mapped[k..]) == AddRefs(target.shared, mapped)
    {
      AddRefsNext(shared, mapped[k..]);
      assert mapped[k..][1..] == mapped[k + 1..];
      if mapped[k] !in shared {
        shared := shared + [mapped[k]];
      }
    }
    AddNoRefs(shared);
    assert mapped[|mapped|..] == [];
    EnrichedWhere(ps, owner, room, index);
    providers := providers[index := target.(provide := target.provide || room.provide, shared := shared)];
  }

  lemma AddNoRefs(shared: seq<ModelRef>)
    ensures AddRefs(shared, []) == shared
  {}

  lemma AddRefsNext(shared: seq<ModelRef>, refs: seq<ModelRef>)
    requires refs != []
    ensures AddRefs(shared, refs) == AddRefs(if refs[0] in shared then shared else shared + [refs[0]], refs[1..])
  {}

  lemma {:induction false} EnrichedWhere(ps: seq<Provider>, owner: string, room: ExternalRoom, index: nat)
    requires index <= |ps| && (index < |ps| ==> RoomOf(ps[index]) == Some(room.room))
    requires forall k | 0 <= k < index :: RoomOf(ps[k]) != Some(room.room)
    ensures EnrichFirst(ps, owner, room) ==
              if index < |ps| then ps[index := Enriched(ps[index], owner, room)]
              else ps + [Enriched(Synthetic(owner, room.room), owner, room)]
  {
    hide RoomOf, AddRefs;
    if index == 0 {
      assert ps != [] ==> [Enriched(ps[0], owner, room)] + ps[1..] == ps[0 := Enriched(ps[0], owner, room)];
    } else {
      EnrichedWhere(ps[1..], owner, room, index - 1);
      assert ps == [ps[0]] + ps[1..];
    }
  }
}
