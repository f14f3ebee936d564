/** Signing and verifying wire messages over the canonical text of every field but the signature. */
module WireSign {
  import opened Wrappers
  import opened Text
  import opened Utf8
  import opened Json
  import opened Stringify

  const SIGNATURE := "signature"
  const FROM_ID := "fromId"
  const SIGNATURE_TEXT_LEN: nat := 86
  const DID_KEY_LEN: nat := 56

  // ---- Fields of a wire ---------------------------------------------------------------------

  function Remove(fields: seq<Entry>, key: string): (r: seq<Entry>)
    ensures forall e :: e in r <==> e in fields && e.key != key
  {
    if fields == [] then []
    else
      assert fields == [fields[0]] + fields[1..];
      (if fields[0].key == key then [] else [fields[0]]) + Remove(fields[1..], key)
  }

  /** Replaces the value of a key, or adds the key at the end. */
  function Set(fields: seq<Entry>, key: string, v: Json): seq<Entry> {
    if fields == [] then [Entry(key, v)]
    else if fields[0].key == key then [Entry(key, v)] + fields[1..]
    else [fields[0]] + Set(fields[1..], key, v)
  }

  function SigningPayload(fields: seq<Entry>): string {
    StableStringify(Obj(Remove(fields, SIGNATURE)))
  }

  lemma {:induction false} RemoveKeepsOthers(fields: seq<Entry>, key: string, other: string)
    ensures Find(Remove(fields, key), other) == if other == key then None else Find(fields, other)
  {
    if fields != [] {
      RemoveKeepsOthers(fields[1..], key, other);
      var rest := Remove(fields[1..], key);
      if fields[0].key == key {
        assert Remove(fields, key) == rest;
      } else {
        assert Remove(fields, key) == [fields[0]] + rest;
        assert ([fields[0]] + rest)[1..] == rest;
      }
    }
  }

  lemma {:induction false} RemoveKeepsDistinct(fields: seq<Entry>, key: string)
    requires DistinctKeys(fields)
    ensures DistinctKeys(Remove(fields, key))
  {
    if fields != [] {
      RemoveKeepsDistinct(fields[1..], key);
      var rest := Remove(fields[1..], key);
      forall j | 0 <= j < |rest| ensures rest[j].key != fields[0].key {
        assert rest[j] in fields[1..];
      }
    }
  }

  lemma {:induction false} SetFinds(fields: seq<Entry>, key: string, v: Json, other: string)
    ensures Find(Set(fields, key, v), other) == if other == key then Some(v) else Find(fields, other)
  {
    if fields != [] {
      SetFinds(fields[1..], key, v, other);
    }
  }

  lemma {:induction false} SetThenRemove(fields: seq<Entry>, key: string, v: Json)
    requires DistinctKeys(fields)
    ensures Remove(Set(fields, key, v), key) == Remove(fields, key)
  {
    if fields == [] {
      assert [Entry(key, v)][1..] == [];
    } else {
      SetThenRemove(fields[1..], key, v);
    }
  }

  lemma {:induction false} SetKeepsDistinct(fields: seq<Entry>, key: string, v: Json)
    requires DistinctKeys(fields)
    ensures DistinctKeys(Set(fields, key, v))
    ensures forall e | e in Set(fields, key, v) :: e in fields || e == Entry(key, v)
  {
    if fields != [] && fields[0].key != key {
      SetKeepsDistinct(fields[1..], key, v);
      var rest := Set(fields[1..], key, v);
      forall j | 0 <= j < |rest| ensures rest[j].key != fields[0].key {
        assert rest[j] in rest;
      }
    }
  }

  lemma {:induction false} SetTwice(fields: seq<Entry>, key: string, v: Json)
    ensures Set(Set(fields, key, v), key, v) == Set(fields, key, v)
  {
    if fields != [] && fields[0].key != key {
      SetTwice(fields[1..], key, v);
    }
  }

  // ---- What the payload commits to ----------------------------------------------------------

  /** The wires agree on every field but `signature`. */
  ghost predicate SameUnsigned(a: seq<Entry>, b: seq<Entry>) {
    forall key: string | key != "signature" :: SameField(a, b, key)
  }

  lemma UnsignedWellFormed(fields: seq<Entry>)
    requires WellFormed(Obj(fields))
    ensures WellFormed(Obj(Remove(fields, SIGNATURE)))
  {
    RemoveKeepsDistinct(fields, SIGNATURE);
    var rest := Remove(fields, SIGNATURE);
    forall i | 0 <= i < |rest| ensures WellFormed(rest[i].value) {
      assert rest[i] in fields;
    }
  }

  /** Two wires have one signing payload exactly when they agree on every field but the signature. */
  lemma PayloadCommitsToEveryField(a: seq<Entry>, b: seq<Entry>)
    requires WellFormed(Obj(a)) && WellFormed(Obj(b))
    ensures SigningPayload(a) == SigningPayload(b) <==> SameUnsigned(a, b)
  {
    hide StableStringify, Same, WellFormed;
    UnsignedWellFormed(a);
    UnsignedWellFormed(b);
    var x, y := Remove(a, SIGNATURE), Remove(b, SIGNATURE);
    SameTextExactlyWhenSame(Obj(x), Obj(y));
    assert DistinctKeys(x) && DistinctKeys(y) by { WellFormedKeys(x); WellFormedKeys(y); }
    SameExactlyWhenAgree(x, y);
    forall key: string ensures SameField(x, y, key) <==> key == SIGNATURE || SameField(a, b, key) {
      RemoveKeepsOthers(a, SIGNATURE, key);
      RemoveKeepsOthers(b, SIGNATURE, key);
    }
    assert Agree(x, y) <==> SameUnsigned(a, b);
  }

  lemma WellFormedKeys(fields: seq<Entry>)
    requires WellFormed(Obj(fields))
    ensures DistinctKeys(fields)
  {}

  // ---- Signatures ---------------------------------------------------------------------------

  /** Secret keys, told apart by a number. */
  type Key = nat

  /** Ed25519 over `did:key` identities and unpadded base64url, as far as signing uses them. */
  datatype Scheme = Scheme(
    did: Key -> string,
    sign: (Key, string) -> seq<Byte>,
    verify: (string, string, seq<Byte>) -> Option<bool>,
    encode: seq<Byte> -> string,
    decode: string -> Option<seq<Byte>>)

  ghost predicate LawfulScheme(s: Scheme) {
    && (forall k: Key :: Size(s.did(k)) == DID_KEY_LEN)
    && (forall k: Key, p: string :: SignatureIsGood(s, k, p))
  }

  ghost predicate SignatureIsGood(s: Scheme, k: Key, p: string) {
    var text := s.encode(s.sign(k, p));
    && Size(text) == SIGNATURE_TEXT_LEN
    && s.decode(text) == Some(s.sign(k, p))
    && s.verify(s.did(k), p, s.sign(k, p)) == Some(true)
  }

  function TextField(fields: seq<Entry>, key: string): Option<string> {
    match Find(fields, key)
    case Some(Str(t)) => Some(t)
    case _ => None
  }

  /** The signed fields, or an error when the wire is not from this identity. */
  function Signed(s: Scheme, fields: seq<Entry>, k: Key): Result<seq<Entry>> {
    match TextField(fields, FROM_ID)
    case None => Err("wire is missing a string `fromId` field")
    case Some(from) =>
      if from != s.did(k) then Err("wire fromId does not match the local DID identity")
      else Ok(Set(fields, SIGNATURE, Str(s.encode(s.sign(k, SigningPayload(fields))))))
  }

  /** A wire is authentic when its signature is valid for the rest of it; anything malformed is not. */
  function VerifyWire(s: Scheme, v: Json): bool {
    match v
    case Obj(fields) =>
      (match (TextField(fields, FROM_ID), TextField(fields, SIGNATURE))
       case (Some(from), Some(signature)) =>
         if Size(signature) != SIGNATURE_TEXT_LEN || Size(from) != DID_KEY_LEN then false
         else
           (match s.decode(signature)
            case Some(bytes) => s.verify(from, SigningPayload(fields), bytes) == Some(true)
            case None => false)
       case _ => false)
    case _ => false
  }

  lemma TextFieldOfSet(fields: seq<Entry>, key: string, v: Json, other: string)
    ensures TextField(Set(fields, key, v), other) ==
              if other == key then (if v.Str? then Some(v.s) else None) else TextField(fields, other)
  {
    SetFinds(fields, key, v, other);
  }

  /** Setting the signature field leaves the rest of the wire and its payload alone. */
  lemma SignatureFieldIsSeparate(fields: seq<Entry>, signature: string)
    requires WellFormed(Obj(fields))
    ensures var w := Set(fields, SIGNATURE, Str(signature));
            && WellFormed(Obj(w))
            && SigningPayload(w) == SigningPayload(fields)
            && (forall key | key != SIGNATURE :: Find(w, key) == Find(fields, key))
            && TextField(w, SIGNATURE) == Some(signature)
            && TextField(w, FROM_ID) == TextField(fields, FROM_ID)
  {
    hide StableStringify, Find;
    var v := Str(signature);
    SetKeepsDistinct(fields, SIGNATURE, v);
    SetThenRemove(fields, SIGNATURE, v);
    TextFieldOfSet(fields, SIGNATURE, v, FROM_ID);
    TextFieldOfSet(fields, SIGNATURE, v, SIGNATURE);
    forall key | key != SIGNATURE ensures Find(Set(fields, SIGNATURE, v), key) == Find(fields, key) {
      SetFinds(fields, SIGNATURE, v, key);
    }
    var w := Set(fields, SIGNATURE, v);
    forall i | 0 <= i < |w| ensures WellFormed(w[i].value) {
      assert w[i] in fields || w[i] == Entry(SIGNATURE, v);
    }
  }

  /**
   Signing succeeds exactly for wires that name the signer. The result verifies, differs from the
   wire in the signature field at most, and does not depend on a signature that was there before.
   */
  lemma SignedWireVerifies(s: Scheme, fields: seq<Entry>, k: Key)
    requires LawfulScheme(s) && WellFormed(Obj(fields))
    ensures Signed(s, fields, k).Ok? <==> TextField(fields, FROM_ID) == Some(s.did(k))
    ensures Signed(s, fields, k).Ok? ==>
              var w := Signed(s, fields, k).value;
              && VerifyWire(s, Obj(w))
              && WellFormed(Obj(w))
              && (forall key | key != SIGNATURE :: Find(w, key) == Find(fields, key))
              && SigningPayload(w) == SigningPayload(fields)
              && Signed(s, w, k) == Ok(w)
  {
    hide SigningPayload, Size, Set, WellFormed, TextField, Find;
    if Signed(s, fields, k).Ok? {
      var payload := SigningPayload(fields);
      var signature := s.encode(s.sign(k, payload));
      assert SignatureIsGood(s, k, payload);
      SignatureFieldIsSeparate(fields, signature);
      SetTwice(fields, SIGNATURE, Str(signature));
    }
  }

  /** Two spellings of one wire are both authentic or both not; key order cannot matter. */
  lemma VerificationIgnoresOrder(s: Scheme, a: seq<Entry>, b: seq<Entry>)
    requires WellFormed(Obj(a)) && WellFormed(Obj(b)) && Same(Obj(a), Obj(b))
    ensures VerifyWire(s, Obj(a)) == VerifyWire(s, Obj(b))
  {
    hide StableStringify, Same, Size;
    SameExactlyWhenAgree(a, b);
    PayloadCommitsToEveryField(a, b);
    assert SameField(a, b, FROM_ID) && SameField(a, b, SIGNATURE);
    SameTextField(a, b, FROM_ID);
    SameTextField(a, b, SIGNATURE);
  }

  lemma SameTextField(a: seq<Entry>, b: seq<Entry>, key: string)
    requires SameField(a, b, key)
    ensures TextField(a, key) == TextField(b, key)
  {}

  // ---- What is refused ----------------------------------------------------------------------

  /** The field is a string, and this one. */
  predicate HasText(fields: seq<Entry>, key: string, text: string) { Find(fields, key) == Some(Str(text)) }

  lemma TextIsRead(fields: seq<Entry>, key: string)
    ensures TextField(fields, key).Some? ==> HasText(fields, key, TextField(fields, key).value)
    ensures forall text | HasText(fields, key, text) :: TextField(fields, key) == Some(text)
  {}

  /**
   A wire is authentic exactly when it is an object with a string `fromId` of 56 bytes and a string
   `signature` of 86 bytes, and the latter decodes to a signature that is good for the former and
   for the canonical text of everything but the signature.
   */
  lemma AuthenticExactlyWhen(s: Scheme, v: Json)
    ensures VerifyWire(s, v) <==>
              exists from, signature ::
                && v.Obj? && HasText(v.entries, "fromId", from) && HasText(v.entries, "signature", signature)
                && Size(from) == 56 && Size(signature) == 86 && s.decode(signature).Some?
                && s.verify(from, SigningPayload(v.entries), s.decode(signature).value) == Some(true)
  {
    hide Size, SigningPayload, TextField, HasText;
    if v.Obj? {
      TextIsRead(v.entries, FROM_ID);
      TextIsRead(v.entries, SIGNATURE);
    }
  }

  /** The scheme accepts a key's signature for the text that was signed, and for no other one. */
  ghost predicate BindsText(s: Scheme, k: Key) {
    forall p: string, q: string :: AcceptsOnly(s, k, p, q)
  }

  ghost predicate AcceptsOnly(s: Scheme, k: Key, p: string, q: string) {
    s.verify(s.did(k), p, s.sign(k, q)) == Some(true) <==> p == q
  }

  /** A signature carried over to another wire is good there exactly when no other field differs. */
  lemma SignatureBindsWire(s: Scheme, fields: seq<Entry>, k: Key, other: seq<Entry>)
    requires LawfulScheme(s) && BindsText(s, k)
    requires WellFormed(Obj(fields)) && WellFormed(Obj(other)) && Signed(s, fields, k).Ok?
    requires var w := Signed(s, fields, k).value;
             Find(other, "signature") == Find(w, "signature") && Find(other, "fromId") == Find(w, "fromId")
    ensures VerifyWire(s, Obj(other)) <==> SameUnsigned(other, Signed(s, fields, k).value)
  {
    hide Size, SigningPayload, Set, WellFormed, Find, SameUnsigned;
    SignedWireVerifies(s, fields, k);
    var w, payload := Signed(s, fields, k).value, SigningPayload(fields);
    var signature := s.encode(s.sign(k, payload));
    SignatureFieldIsSeparate(fields, signature);
    assert SignatureIsGood(s, k, payload);
    assert AcceptsOnly(s, k, SigningPayload(other), payload);
    PayloadCommitsToEveryField(other, w);
  }

  /** Where the scheme accepts nothing from a sender, no wire of this sender is authentic. */
  lemma NothingFromStrangers(s: Scheme, from: string, v: Json)
    requires forall p: string, b: seq<Byte> :: s.verify(from, p, b) != Some(true)
    requires v.Obj? ==> Find(v.entries, "fromId") == Some(Str(from))
    ensures !VerifyWire(s, v)
  {
    hide Size, SigningPayload, Find;
  }

  /** What signing writes: the encoded signature of the canonical text of the other fields, as a string. */
  lemma SignatureIsWritten(s: Scheme, fields: seq<Entry>, k: Key)
    requires Find(fields, "fromId") == Some(Str(s.did(k)))
    ensures Signed(s, fields, k).Ok?
    ensures var unsigned := StableStringify(Obj(Remove(fields, "signature")));
            forall key :: Find(Signed(s, fields, k).value, key) ==
              if key == "signature" then Some(Str(s.encode(s.sign(k, unsigned)))) else Find(fields, key)
  {
    hide StableStringify, Set, Remove, Find;
    var signature := Str(s.encode(s.sign(k, SigningPayload(fields))));
    forall key
      ensures Find(Set(fields, SIGNATURE, signature), key) ==
                if key == SIGNATURE then Some(signature) else Find(fields, key)
    {
      SetFinds(fields, SIGNATURE, signature, key);
    }
  }

  // ---- Signing in place ---------------------------------------------------------------------

  class Wire {
    var fields: seq<Entry>

    constructor (fields: seq<Entry>)
      ensures this.fields == fields
    {
      this.fields := fields;
    }

    method Sign(s: Scheme, k: Key) returns (r: Result<()>)
      modifies this
      ensures r.Ok? <==> Signed(s, old(fields), k).Ok?
      ensures fields == if r.Ok? then Signed(s, old(fields), k).value else old(fields)
    {
      var from := TextField(fields, FROM_ID);
      if from.None? {
        return Err("wire is missing a string `fromId` field");
      }
      if from.value != s.did(k) {
        return Err("wire fromId does not match the local DID identity");
      }
      var payload := SigningPayload(fields);
      var signature := s.encode(s.sign(k, payload));
      fields := Set(fields, SIGNATURE, Str(signature));
      r := Ok(());
    }
  }
}
