/** JSON values with integer numbers, and when two of them are the same value. */
module Json {
  import opened Wrappers

  /** An object keeps its members in insertion order. */
  datatype Json =
    | Null
    | Bool(b: bool)
    | Num(n: int)
    | Str(s: string)
    | Arr(items: seq<Json>)
    | Obj(entries: seq<Entry>)

  datatype Entry = Entry(key: string, value: Json)

  /** Integers that fit `i64` or `u64`. */
  predicate IsInteger(n: int) {
    -0x8000_0000_0000_0000 <= n < 0x1_0000_0000_0000_0000
  }

  ghost predicate DistinctKeys(entries: seq<Entry>) {
    forall i, j | 0 <= i < j < |entries| :: entries[i].key != entries[j].key
  }

  /** Numbers are in range and keys are distinct, everywhere in the value. */
  ghost predicate WellFormed(v: Json) {
    match v
    case Num(n) => IsInteger(n)
    case Arr(items) => forall i | 0 <= i < |items| :: WellFormed(items[i])
    case Obj(entries) => DistinctKeys(entries) && forall i | 0 <= i < |entries| :: WellFormed(entries[i].value)
    case _ => true
  }

  // ---- Members ------------------------------------------------------------------------------

  function Find(entries: seq<Entry>, key: string): (r: Option<Json>)
    ensures r.Some? ==> Entry(key, r.value) in entries
    ensures r.None? ==> forall e | e in entries :: e.key != key
  {
    if entries == [] then None
    else if entries[0].key == key then Some(entries[0].value)
    else Find(entries[1..], key)
  }

  lemma {:induction false} FindMember(entries: seq<Entry>, i: nat)
    requires DistinctKeys(entries) && i < |entries|
    ensures Find(entries, entries[i].key) == Some(entries[i].value)
  {
    if i > 0 {
      FindMember(entries[1..], i - 1);
    }
  }

  lemma FindIsMembership(entries: seq<Entry>, key: string, v: Json)
    requires DistinctKeys(entries)
    ensures Find(entries, key) == Some(v) <==> Entry(key, v) in entries
  {
    if Entry(key, v) in entries {
      var i :| 0 <= i < |entries| && entries[i] == Entry(key, v);
      FindMember(entries, i);
    }
  }

  // ---- Sameness -----------------------------------------------------------------------------

  /**
   The same JSON value: arrays agree element by element, objects have the same keys with the
   same values, in whatever order the keys were inserted.
   */
  ghost predicate Same(v: Json, w: Json)
    decreases v
  {
    match v
    case Arr(items) =>
      && w.Arr? && |w.items| == |items|
      && forall i | 0 <= i < |items| :: Same(items[i], w.items[i])
    case Obj(entries) =>
      && w.Obj?
      && SameKeys(entries, w.entries)
      && forall i, j | 0 <= i < |entries| && 0 <= j < |w.entries| && entries[i].key == w.entries[j].key ::
         Same(entries[i].value, w.entries[j].value)
    case _ => v == w
  }

  ghost predicate HasKey(entries: seq<Entry>, key: string) {
    exists i :: 0 <= i < |entries| && entries[i].key == key
  }

  ghost predicate SameKeys(a: seq<Entry>, b: seq<Entry>) {
    forall key: string :: HasKey(a, key) <==> HasKey(b, key)
  }

  ghost predicate SameField(a: seq<Entry>, b: seq<Entry>, key: string) {
    match (Find(a, key), Find(b, key))
    case (Some(v), Some(w)) => Same(v, w)
    case (None, None) => true
    case _ => false
  }

  ghost predicate Agree(a: seq<Entry>, b: seq<Entry>) {
    forall key: string :: SameField(a, b, key)
  }

  lemma HasKeyIsFind(entries: seq<Entry>, key: string)
    ensures HasKey(entries, key) <==> Find(entries, key).Some?
  {
    var r := Find(entries, key);
    if r.Some? {
      var i :| 0 <= i < |entries| && entries[i] == Entry(key, r.value);
    } else {
      assert forall i | 0 <= i < |entries| :: entries[i] in entries;
    }
  }

  /** Objects are the same value exactly when every key has the same value in both. */
  lemma SameExactlyWhenAgree(a: seq<Entry>, b: seq<Entry>)
    requires DistinctKeys(a) && DistinctKeys(b)
    ensures Same(Obj(a), Obj(b)) <==> Agree(a, b)
  {
    if Same(Obj(a), Obj(b)) {
      forall key: string ensures SameField(a, b, key) {
        SameGivesField(a, b, key);
      }
    }
    if Agree(a, b) {
      forall key: string ensures HasKey(a, key) <==> HasKey(b, key) {
        HasKeyIsFind(a, key);
        HasKeyIsFind(b, key);
        assert SameField(a, b, key);
      }
      forall i, j | 0 <= i < |a| && 0 <= j < |b| && a[i].key == b[j].key ensures Same(a[i].value, b[j].value) {
        FindMember(a, i);
        FindMember(b, j);
        assert SameField(a, b, a[i].key);
      }
    }
  }

  lemma SameGivesField(a: seq<Entry>, b: seq<Entry>, key: string)
    requires DistinctKeys(a) && DistinctKeys(b) && Same(Obj(a), Obj(b))
    ensures SameField(a, b, key)
  {
    HasKeyIsFind(a, key);
    HasKeyIsFind(b, key);
    assert HasKey(a, key) <==> HasKey(b, key);
    if HasKey(a, key) {
      var i :| 0 <= i < |a| && a[i].key == key;
      var j :| 0 <= j < |b| && b[j].key == key;
      FindMember(a, i);
      FindMember(b, j);
    }
  }

  // ---- Sorting by key -----------------------------------------------------------------------

  /** Order of strings by code points, which is the byte order of their UTF-8 form. */
  predicate Less(a: string, b: string) {
    if b == "" then false
    else if a == "" then true
    else if a[0] != b[0] then a[0] < b[0]
    else Less(a[1..], b[1..])
  }

  lemma {:induction false} LessIsTotal(a: string, b: string)
    ensures Less(a, b) || Less(b, a) || a == b
    ensures !(Less(a, b) && Less(b, a))
    ensures Less(a, b) ==> a != b
  {
    if a != "" && b != "" && a[0] == b[0] {
      LessIsTotal(a[1..], b[1..]);
      assert a == [a[0]] + a[1..] && b == [b[0]] + b[1..];
    }
  }

  lemma {:induction false} LessIsTransitive(a: string, b: string, c: string)
    requires Less(a, b) && Less(b, c)
    ensures Less(a, c)
  {
    if a != "" && b != "" && c != "" && a[0] == b[0] == c[0] {
      LessIsTransitive(a[1..], b[1..], c[1..]);
    }
  }

  /** At the first difference the smaller character comes first, and a text comes before what continues it. */
  lemma {:induction false} LessIsByCharacter(p: string, x: char, a: string, y: char, b: string)
    requires x < y
    ensures Less(p + [x] + a, p + [y] + b) && !Less(p + [y] + b, p + [x] + a)
    ensures Less(p, p + [x] + a) && !Less(p + [x] + a, p)
  {
    if p == "" {
      assert (p + [x] + a)[0] == x && (p + [y] + b)[0] == y;
    } else {
      assert (p + [x] + a)[1..] == p[1..] + [x] + a && (p + [y] + b)[1..] == p[1..] + [y] + b;
      LessIsByCharacter(p[1..], x, a, y, b);
    }
  }

  function Insert(e: Entry, sorted: seq<Entry>): (r: seq<Entry>)
    ensures multiset(r) == multiset(sorted) + multiset{e}
  {
    if sorted == [] || !Less(sorted[0].key, e.key) then [e] + sorted
    else
      assert sorted == [sorted[0]] + sorted[1..];
      [sorted[0]] + Insert(e, sorted[1..])
  }

  function SortByKey(entries: seq<Entry>): (r: seq<Entry>)
    ensures multiset(r) == multiset(entries)
  {
    if entries == [] then []
    else
      assert entries == [entries[0]] + entries[1..];
      Insert(entries[0], SortByKey(entries[1..]))
  }

  ghost predicate Ascending(entries: seq<Entry>) {
    forall i, j | 0 <= i < j < |entries| :: Less(entries[i].key, entries[j].key)
  }

  lemma SameMembers(a: seq<Entry>, b: seq<Entry>)
    requires multiset(a) == multiset(b)
    ensures forall e :: e in a <==> e in b
    ensures |a| == |b|
  {
    forall e ensures e in a <==> e in b {
      assert e in a <==> e in multiset(a);
      assert e in b <==> e in multiset(b);
    }
    assert |a| == |multiset(a)| && |b| == |multiset(b)|;
  }

  lemma {:induction false} InsertAscending(e: Entry, sorted: seq<Entry>)
    requires Ascending(sorted) && forall x | x in sorted :: x.key != e.key
    ensures Ascending(Insert(e, sorted))
  {
    if sorted == [] {
    } else if !Less(sorted[0].key, e.key) {
      LessIsTotal(e.key, sorted[0].key);
      forall i | 0 <= i < |sorted| ensures Less(e.key, sorted[i].key) {
        if i > 0 { LessIsTransitive(e.key, sorted[0].key, sorted[i].key); }
      }
    } else {
      InsertAscending(e, sorted[1..]);
      var rest := Insert(e, sorted[1..]);
      forall i | 0 <= i < |rest| ensures Less(sorted[0].key, rest[i].key) {
        assert rest[i] in multiset(rest);
        assert rest[i] in sorted[1..] || rest[i] == e;
      }
    }
  }

  lemma {:induction false} SortedAscending(entries: seq<Entry>)
    requires DistinctKeys(entries)
    ensures Ascending(SortByKey(entries))
  {
    if entries != [] {
      var rest := entries[1..];
      SortedAscending(rest);
      SameMembers(SortByKey(rest), rest);
      InsertAscending(entries[0], SortByKey(rest));
    }
  }

  /** Two ascending sequences with the same members are equal. */
  lemma {:induction false} AscendingUnique(a: seq<Entry>, b: seq<Entry>)
    requires Ascending(a) && Ascending(b)
    requires forall e :: e in a <==> e in b
    ensures a == b
  {
    if a == [] {
      if b != [] { FirstIsMember(b); }
    } else {
      assert a[0] in b;
      assert b[0] in a;
      var i :| 0 <= i < |b| && b[i] == a[0];
      var j :| 0 <= j < |a| && a[j] == b[0];
      LessIsTotal(a[0].key, b[0].key);
      assert a[0] == b[0];
      TailMembers(a, b);
      AscendingUnique(a[1..], b[1..]);
    }
  }

  lemma FirstIsMember(entries: seq<Entry>)
    requires entries != []
    ensures entries[0] in entries
  {}

  /** Keys do not matter to the order of equal keys, so sorting first or canonicalising first agree. */
  lemma {:induction false} SortCommutesWithCanon(entries: seq<Entry>)
    requires DistinctKeys(entries)
    ensures CanonEntries(SortByKey(entries)) == SortByKey(CanonEntries(entries))
  {
    hide SortByKey;
    var sorted, canon := SortByKey(entries), CanonEntries(entries);
    var a, b := CanonEntries(sorted), SortByKey(canon);
    SortedAscending(entries);
    SortedAscending(canon);
    SameMembers(entries, sorted);
    SameMembers(canon, b);
    forall e ensures e in a <==> e in b {
      if e in a {
        var i :| 0 <= i < |a| && a[i] == e;
        assert sorted[i] in entries;
        var j :| 0 <= j < |entries| && entries[j] == sorted[i];
        assert canon[j] == e;
      }
      if e in canon {
        var j :| 0 <= j < |canon| && canon[j] == e;
        assert entries[j] in sorted;
        var i :| 0 <= i < |sorted| && sorted[i] == entries[j];
        assert a[i] == e;
      }
    }
    AscendingUnique(a, b);
  }

  /** Sorting a sorted sequence changes nothing. */
  lemma SortedAlready(entries: seq<Entry>)
    requires DistinctKeys(entries)
    ensures DistinctKeys(SortByKey(entries))
    ensures SortByKey(SortByKey(entries)) == SortByKey(entries)
  {
    hide SortByKey;
    var sorted := SortByKey(entries);
    SortedAscending(entries);
    forall i, j | 0 <= i < j < |sorted| ensures sorted[i].key != sorted[j].key {
      LessIsTotal(sorted[i].key, sorted[j].key);
    }
    SortedAscending(sorted);
    SameMembers(sorted, SortByKey(sorted));
    AscendingUnique(sorted, SortByKey(sorted));
  }

  lemma TailMembers(a: seq<Entry>, b: seq<Entry>)
    requires Ascending(a) && Ascending(b) && a != [] && b != [] && a[0] == b[0]
    requires forall e :: e in a <==> e in b
    ensures forall e :: e in a[1..] <==> e in b[1..]
  {
    forall e ensures e in a[1..] <==> e in b[1..] {
      LessIsTotal(a[0].key, a[0].key);
      assert e in a[1..] ==> e in a && e != a[0];
      assert e in b[1..] ==> e in b && e != b[0];
      assert e in a && e != a[0] ==> e in a[1..];
      assert e in b && e != b[0] ==> e in b[1..];
    }
  }

  // ---- The canonical form -------------------------------------------------------------------

  /** Members of every object in ascending order of their keys. */
  function Canon(v: Json): Json
    decreases v, 0
  {
    match v
    case Arr(items) => Arr(CanonItems(items))
    case Obj(entries) => Obj(SortByKey(CanonEntries(entries)))
    case _ => v
  }

  function CanonItems(items: seq<Json>): (r: seq<Json>)
    ensures |r| == |items|
    ensures forall i | 0 <= i < |items| :: r[i] == Canon(items[i])
    decreases items
  {
    if items == [] then [] else [Canon(items[0])] + CanonItems(items[1..])
  }

  function CanonEntries(entries: seq<Entry>): (r: seq<Entry>)
    ensures |r| == |entries|
    ensures forall i | 0 <= i < |entries| :: r[i] == Entry(entries[i].key, Canon(entries[i].value))
    decreases entries
  {
    if entries == [] then [] else [Entry(entries[0].key, Canon(entries[0].value))] + CanonEntries(entries[1..])
  }

  /** Values that are the same have one canonical form. */
  lemma {:induction false} SameCanon(v: Json, w: Json)
    requires WellFormed(v) && WellFormed(w) && Same(v, w)
    ensures Canon(v) == Canon(w)
  {
    match v
    case Arr(items) =>
      forall i | 0 <= i < |items| ensures Canon(items[i]) == Canon(w.items[i]) {
        SameCanon(items[i], w.items[i]);
      }
      assert CanonItems(items) == CanonItems(w.items);
    case Obj(entries) =>
      var a, b := CanonEntries(entries), CanonEntries(w.entries);
      forall i, j | 0 <= i < |entries| && 0 <= j < |w.entries| && entries[i].key == w.entries[j].key
        ensures a[i] == b[j]
      {
        SameCanon(entries[i].value, w.entries[j].value);
      }
      SortSame(a, b, entries, w.entries);
    case _ =>
  }

  lemma SortSame(a: seq<Entry>, b: seq<Entry>, entries: seq<Entry>, others: seq<Entry>)
    requires |a| == |entries| && |b| == |others| && DistinctKeys(entries) && DistinctKeys(others)
    requires forall i | 0 <= i < |a| :: a[i].key == entries[i].key
    requires forall j | 0 <= j < |b| :: b[j].key == others[j].key
    requires SameKeys(entries, others)
    requires forall i, j | 0 <= i < |a| && 0 <= j < |b| && entries[i].key == others[j].key :: a[i] == b[j]
    ensures SortByKey(a) == SortByKey(b)
  {
    hide SortByKey;
    SortedAscending(a);
    SortedAscending(b);
    SameMembers(a, SortByKey(a));
    SameMembers(b, SortByKey(b));
    forall e ensures e in a <==> e in b {
      if e in a {
        var i :| 0 <= i < |a| && a[i] == e;
        assert HasKey(entries, entries[i].key);
        assert HasKey(others, entries[i].key);
        var j :| 0 <= j < |others| && others[j].key == entries[i].key;
        assert b[j] == e;
      }
      if e in b {
        var j :| 0 <= j < |b| && b[j] == e;
        assert HasKey(others, others[j].key);
        assert HasKey(entries, others[j].key);
        var i :| 0 <= i < |entries| && entries[i].key == others[j].key;
        assert a[i] == e;
      }
    }
    AscendingUnique(SortByKey(a), SortByKey(b));
  }

  /** Values with one canonical form are the same. */
  lemma {:induction false} CanonSame(v: Json, w: Json)
    requires WellFormed(v) && WellFormed(w) && Canon(v) == Canon(w)
    ensures Same(v, w)
    decreases v, 1
  {
    match v
    case Arr(items) =>
      forall i | 0 <= i < |items| ensures Same(items[i], w.items[i]) {
        assert CanonItems(items)[i] == CanonItems(w.items)[i];
        CanonSame(items[i], w.items[i]);
      }
    case Obj(entries) =>
      CanonSameObject(v, w);
    case _ =>
  }

  lemma {:induction false} CanonSameObject(v: Json, w: Json)
    requires WellFormed(v) && WellFormed(w) && v.Obj? && Canon(v) == Canon(w)
    ensures Same(v, w)
    decreases v, 0
  {
    hide SortByKey;
    var entries, others := v.entries, w.entries;
    var a, b := CanonEntries(entries), CanonEntries(others);
    SameMembers(a, SortByKey(a));
    SameMembers(b, SortByKey(b));
    assert forall e :: e in a <==> e in b;
    SameKeysFromMembers(a, b, entries, others);
    forall i, j | 0 <= i < |entries| && 0 <= j < |others| && entries[i].key == others[j].key
      ensures Same(entries[i].value, others[j].value)
    {
      assert a[i] in b;
      var k :| 0 <= k < |b| && b[k] == a[i];
      assert others[k].key == others[j].key;
      assert k == j;
      CanonSame(entries[i].value, others[j].value);
    }
  }

  lemma SameKeysFromMembers(a: seq<Entry>, b: seq<Entry>, entries: seq<Entry>, others: seq<Entry>)
    requires |a| == |entries| && |b| == |others|
    requires forall i | 0 <= i < |a| :: a[i].key == entries[i].key
    requires forall j | 0 <= j < |b| :: b[j].key == others[j].key
    requires forall e :: e in a <==> e in b
    ensures SameKeys(entries, others)
  {
    forall key: string ensures HasKey(entries, key) <==> HasKey(others, key) {
      if HasKey(entries, key) {
        var i :| 0 <= i < |entries| && entries[i].key == key;
        assert a[i] in b;
        var j :| 0 <= j < |b| && b[j] == a[i];
        assert others[j].key == key;
      }
      if HasKey(others, key) {
        var j :| 0 <= j < |others| && others[j].key == key;
        assert b[j] in a;
        var i :| 0 <= i < |a| && a[i] == b[j];
        assert entries[i].key == key;
      }
    }
  }

  /** Canonicalising keeps the value and changes nothing the second time. */
  lemma {:induction false} CanonIsSame(v: Json)
    requires WellFormed(v)
    ensures WellFormed(Canon(v)) && Canon(Canon(v)) == Canon(v) && Same(v, Canon(v))
    decreases v, 1
  {
    match v
    case Arr(items) =>
      forall i | 0 <= i < |items|
        ensures WellFormed(Canon(items[i])) && Canon(Canon(items[i])) == Canon(items[i])
                  && Same(items[i], Canon(items[i]))
      {
        CanonIsSame(items[i]);
      }
      assert CanonItems(CanonItems(items)) == CanonItems(items);
    case Obj(_) =>
      CanonObjectIsSame(v);
    case _ =>
  }

  lemma {:induction false} CanonObjectIsSame(v: Json)
    requires WellFormed(v) && v.Obj?
    ensures WellFormed(Canon(v)) && Canon(Canon(v)) == Canon(v) && Same(v, Canon(v))
    decreases v, 0
  {
    hide SortByKey, Same;
    var canon := CanonEntries(v.entries);
    var sorted := SortByKey(canon);
    forall e | e in v.entries ensures WellFormed(Canon(e.value)) && Canon(Canon(e.value)) == Canon(e.value) {
      CanonIsSame(e.value);
    }
    SortedAlready(canon);
    SameMembers(canon, sorted);
    forall i | 0 <= i < |sorted| ensures WellFormed(sorted[i].value) && Canon(sorted[i].value) == sorted[i].value {
      assert sorted[i] in canon;
      var j :| 0 <= j < |canon| && canon[j] == sorted[i];
      assert v.entries[j] in v.entries;
    }
    assert CanonEntries(sorted) == sorted;
    CanonSame(v, Canon(v));
  }

  // ---- A JSON library -----------------------------------------------------------------------

  /** Compact printing and parsing of documents, as provided by `serde_json`. */
  datatype JsonLib = JsonLib(write: Json -> string, read: string -> Option<Json>)

  predicate NoLineBreak(s: string) { '\n' !in s && '\r' !in s }

  /** Printed values are one line, and objects are wrapped in braces. */
  ghost predicate PrintsWell(lib: JsonLib, v: Json) {
    var s := lib.write(v);
    && NoLineBreak(s)
    && (v.Obj? ==> s != "" && s[0] == '{' && s[|s| - 1] == '}')
    && (forall ws: string | ws == "" || ws == "\n" :: ReadsBack(lib, v, ws))
  }

  ghost predicate ReadsBack(lib: JsonLib, v: Json, ws: string) {
    var r := lib.read(lib.write(v) + ws);
    r.Some? && WellFormed(r.value) && Same(v, r.value)
  }

  /** Nothing, and text that starts like a comment, is no document. */
  ghost predicate RejectsComments(lib: JsonLib) {
    lib.read("") == None && forall s | s != "" && s[0] == '#' :: lib.read(s) == None
  }

  /** Printing and parsing are inverse, up to the order of object members. */
  ghost predicate Lawful(lib: JsonLib) {
    && (forall v: Json | WellFormed(v) :: PrintsWell(lib, v))
    && RejectsComments(lib)
  }
}
