/** Parsed JSON documents, in document order, and places inside them. */
module Json {
  datatype Field = Field(key: string, value: Json)

  datatype Json =
    | Null
    | Bool(b: bool)
    | Number(n: int)
    | Fraction(r: real)
    | Text(s: string)
    | List(items: seq<Json>)
    | Object(fields: seq<Field>)

  datatype Segment = Key(name: string) | Index(i: nat)
  type Pointer = seq<Segment>
}

/** `_sweep_credentials` (tests/config_corpus.py). */
module CredentialSweep {
  import opened Common
  import opened Json

  const CREDENTIAL_KEYS: set<string> :=
    {"api_key", "apikey", "secret", "password", "token", "authorization",
     "private_key", "credential", "credentials", "passphrase", "bearer"}

  predicate IsCredential(key: string) {
    Lower(key) in CREDENTIAL_KEYS
  }

  /** `c` is the small letter, digit or underscore `name`, or its capital; Python also
      lower-cases the Kelvin sign to `k`. */
  predicate SameLetter(c: char, name: char) {
    c == name || ('a' <= name <= 'z' && c == name - 'a' + 'A') || (name == 'k' && c == '\U{212A}')
  }

  predicate SpelledAs(key: string, name: string) {
    |key| == |name| && forall i :: 0 <= i < |key| ==> SameLetter(key[i], name[i])
  }

  predicate InSmallLetters(name: string) {
    forall i :: 0 <= i < |name| ==> 'a' <= name[i] <= 'z' || name[i] == '_'
  }

  lemma SpelledIff(key: string, name: string)
    requires InSmallLetters(name)
    ensures Lower(key) == name <==> SpelledAs(key, name)
  {
    if SpelledAs(key, name) {
      assert forall i :: 0 <= i < |key| ==> Lower(key)[i] == name[i];
    }
    if Lower(key) == name {
      assert forall i :: 0 <= i < |key| ==> Lower(key)[i] == LowerChar(key[i]);
    }
  }

  lemma WordsAreSmall(name: string)
    requires name in CREDENTIAL_KEYS
    ensures InSmallLetters(name)
  {
  }

  /** A key names a credential exactly when it is one of these words in any mixture of
      small letters and capitals. */
  lemma CredentialIff(key: string)
    ensures IsCredential(key) <==>
            exists name :: SpelledAs(key, name) &&
              name in {"api_key", "apikey", "secret", "password", "token", "authorization",
                       "private_key", "credential", "credentials", "passphrase", "bearer"}
  {
    forall name | name in CREDENTIAL_KEYS
      ensures Lower(key) == name <==> SpelledAs(key, name)
    {
      WordsAreSmall(name);
      SpelledIff(key, name);
    }
  }

  function Kids(node: Json): nat {
    match node
    case Object(fields) => |fields|
    case List(items) => |items|
    case _ => 0
  }

  function Kid(node: Json, i: nat): Json
    requires i < Kids(node)
  {
    if node.Object? then node.fields[i].value else node.items[i]
  }

  function SegmentAt(node: Json, i: nat): Segment
    requires i < Kids(node)
  {
    if node.Object? then Key(node.fields[i].key) else Index(i)
  }

  predicate FlaggedAt(node: Json, i: nat)
    requires i < Kids(node)
  {
    node.Object? && IsCredential(node.fields[i].key)
  }

  /** The sweep over the children of `node` from the `i`-th on: the pointer it rejects
      with, or nothing. */
  function Sweep(node: Json, i: nat, at: Pointer): Option<Pointer>
    decreases node, Kids(node) - i
  {
    if i >= Kids(node) then None
    else if FlaggedAt(node, i) then Some(at + [SegmentAt(node, i)])
    else
      match Sweep(Kid(node, i), 0, at + [SegmentAt(node, i)])
      case Some(p) => Some(p)
      case None => Sweep(node, i + 1, at)
  }

  // --- places, by position ---------------------------------------------------------------

  type Place = seq<nat>

  /** `place` is an object key, at any depth, that names a credential. */
  predicate Offends(node: Json, place: Place)
    decreases |place|
  {
    && place != [] && place[0] < Kids(node)
    && if |place| == 1 then FlaggedAt(node, place[0]) else Offends(Kid(node, place[0]), place[1..])
  }

  function PointerTo(node: Json, place: Place): Pointer
    decreases |place|
  {
    if place == [] || place[0] >= Kids(node) then []
    else [SegmentAt(node, place[0])] + PointerTo(Kid(node, place[0]), place[1..])
  }

  /** Depth-first document order: a key comes before everything under it. */
  predicate Precedes(a: Place, b: Place) {
    a == [] || (b != [] && (a[0] < b[0] || (a[0] == b[0] && Precedes(a[1..], b[1..]))))
  }

  ghost predicate FirstOffence(node: Json, from: nat, place: Place) {
    && Offends(node, place) && from <= place[0]
    && forall q :: Offends(node, q) && from <= q[0] ==> Precedes(place, q)
  }

  ghost predicate Clean(node: Json) {
    forall q: Place :: !Offends(node, q)
  }

  lemma OffenceBelow(node: Json, q: Place)
    requires Offends(node, q)
    ensures FlaggedAt(node, q[0]) || Offends(Kid(node, q[0]), q[1..])
  {
  }

  lemma {:induction false} SweepFromFinds(node: Json, i: nat, at: Pointer) returns (place: Place)
    ensures Sweep(node, i, at).None? ==> forall q :: Offends(node, q) ==> q[0] < i
    ensures Sweep(node, i, at).Some? ==>
              FirstOffence(node, i, place) && Sweep(node, i, at).value == at + PointerTo(node, place)
    decreases node, Kids(node) - i
  {
    if i >= Kids(node) {
      place := [];
    } else if FlaggedAt(node, i) {
      place := [i];
      assert PointerTo(node, place) == [SegmentAt(node, i)] + PointerTo(Kid(node, i), []);
      forall q | Offends(node, q) && i <= q[0]
        ensures Precedes(place, q)
      {
        assert place[1..] == [];
      }
    } else {
      var below := at + [SegmentAt(node, i)];
      var p := SweepFromFinds(Kid(node, i), 0, below);
      if Sweep(Kid(node, i), 0, below).Some? {
        place := [i] + p;
        assert place[1..] == p;
        assert below + PointerTo(Kid(node, i), p) == at + PointerTo(node, place);
        forall q | Offends(node, q) && i <= q[0]
          ensures Precedes(place, q)
        {
          if q[0] == i {
            assert Offends(Kid(node, i), q[1..]);
          }
        }
      } else {
        place := SweepFromFinds(node, i + 1, at);
        forall q | Offends(node, q)
          ensures q[0] != i
        {
          OffenceBelow(node, q);
        }
      }
    }
  }

  /** The sweep rejects exactly when some object, at any depth, holds a key whose
      lower-case form names a credential, and it points at the first one in document
      order. */
  lemma SweepFindsFirst(node: Json)
    ensures Sweep(node, 0, []).None? <==> Clean(node)
    ensures Sweep(node, 0, []).Some? ==>
              exists p: Place :: FirstOffence(node, 0, p) && Sweep(node, 0, []).value == PointerTo(node, p)
  {
    var p := SweepFromFinds(node, 0, []);
    if Sweep(node, 0, []).Some? {
      assert Offends(node, p);
      assert !Clean(node);
      assert [] + PointerTo(node, p) == PointerTo(node, p);
    } else {
      assert forall q :: Offends(node, q) ==> q[0] < 0;
    }
  }
}
