// The tailnet key authority's data: trusted keys, authority update messages
// (AUMs) and the state they build (tka/key.go, tka/aum.go, tka/state.go).
module TkaTypes {
  import opened Common

  datatype KeyKind = KeyInvalid | Key25519 | KeyUnknown(n: nat)

  // Meta is the CBOR map as its list of entries.
  datatype Key = Key(kind: KeyKind, votes: nat, public: bytes, meta: seq<(string, string)>)

  type KeyID = bytes

  datatype Signature = Signature(keyID: KeyID, sig: bytes)

  datatype AUMKind = AUMInvalid | AUMAddKey | AUMRemoveKey | AUMNoOp | AUMUpdateKey | AUMCheckpoint | AUMUnknown(n: nat)

  datatype AUM = AUM(
    kind: AUMKind,
    prev: Option<AUMHash>,
    key: Option<Key>,
    keyID: Option<KeyID>,
    state: Option<State>,
    votes: Option<nat>,
    meta: Option<seq<(string, string)>>,
    signatures: seq<Signature>)

  // An ideal BLAKE2s digest: distinct messages have distinct digests, and a
  // digest determines its message.  Junk is any 32-byte value that is the
  // digest of no message.
  datatype AUMHash = Digest(aum: AUM) | Junk(raw: nat)

  datatype State = State(
    last: Option<AUMHash>,
    disablement: seq<bytes>,
    keys: seq<Key>,
    id1: nat,
    id2: nat)

  const EmptyState := State(None, [], [], 0, 0)

  const MaxKeys := 512
  const MaxDisablementValues := 32
  const DisablementLength := 32
  const MaxMetaBytes := 512
  const MaxVotes := 4096

  // The library pieces an authority calls into.
  //   num    reads a 32-byte digest as a big-endian number, so that comparing
  //          digests byte by byte is comparing numbers
  //   verify checks an ed25519 signature over a message without its signatures
  datatype Env = Env(num: AUMHash -> nat, verify: (bytes, AUM, bytes) -> bool)

  datatype GetKeyResult = Found(key: Key) | NoSuchKey | UnknownKeyKind

  // Key.ID: only 25519 keys have one, their public half.
  function IDOf(k: Key): Option<KeyID> {
    if k.kind == Key25519 then Some(k.public) else None
  }

  // State.GetKey: the first key with this ID; a key of unknown kind met on the way is an error.
  function GetKey(keys: seq<Key>, id: KeyID): (r: GetKeyResult)
    ensures r.Found? ==> r.key in keys && IDOf(r.key) == Some(id)
    ensures r == NoSuchKey ==> forall k :: k in keys ==> IDOf(k).Some? && IDOf(k) != Some(id)
    ensures r == UnknownKeyKind ==> exists k :: k in keys && IDOf(k).None?
  {
    if keys == [] then NoSuchKey
    else match IDOf(keys[0])
      case None => UnknownKeyKind
      case Some(i) => if i == id then Found(keys[0]) else GetKey(keys[1..], id)
  }
}
